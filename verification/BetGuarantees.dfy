/** What the ledger promises its users: transfers out are always covered, a cancelled bet leaves no
    trace in pool or statistics, refunds pay each bettor once, and after the deadline the pool is frozen. */
module BetGuarantees {
  import opened Common
  import opened BetLedger
  import opened BetInvariant
  import opened BetResolution
  import opened BetRecord
  import opened BetBatch
  import opened BetRuns

  // ----- transfers out are covered -----

  lemma PoolWithinMarkets(books: map<MarketId, Book>, ms: seq<MarketId>, m: MarketId)
    requires forall x :: Pool(BookAt(books, x)) >= 0
    ensures SumMarkets(WholePool, books, ms) >= 0
    ensures m in ms ==> Pool(BookAt(books, m)) <= SumMarkets(WholePool, books, ms)
  {
    if ms == [] {
    } else {
      PoolWithinMarkets(books, ms[..|ms| - 1], m);
    }
  }

  lemma PoolNonNeg(s: Ledger, m: MarketId)
    requires Recorded(s)
    ensures Pool(BookAt(s.books, m)) >= 0
  {
    BookRecorded(s, m);
    StakesNonNeg(BookAt(s.books, m));
  }

  /** A state the contract can honour: all owed tokens are there. */
  ghost predicate Funded(s: Ledger) {
    Recorded(s) && forall ms: seq<MarketId>, us: seq<User> :: Roster(s, ms, us) ==> Float(s, ms, us) >= 0
  }

  lemma FundedCovers(s: Ledger, m: MarketId, u: User)
    requires Funded(s)
    ensures Pool(BookAt(s.books, m)) + GetOr(s.balances, u, 0) <= s.vault
  {
    var ms := Enumerate(s.books.Keys + {m});
    var us := Enumerate(s.balances.Keys + {u});
    assert Roster(s, ms, us);
    forall x ensures Pool(BookAt(s.books, x)) >= 0 {
      PoolNonNeg(s, x);
    }
    PoolWithinMarkets(s.books, ms, m);
    WithinSum(s.balances, us, u);
  }

  /** Over every run whatsoever, repeated batch markets and revived bets included, a funded state stays funded. */
  lemma RunStaysFunded(s: Ledger, steps: seq<Step>)
    requires Funded(s)
    ensures Funded(Run(s, steps))
  {
    var t := Run(s, steps);
    RunRecords(s, steps);
    forall ms: seq<MarketId>, us: seq<User> | Roster(t, ms, us) ensures Float(t, ms, us) >= 0 {
      RunConserves(s, steps, ms, us);
    }
  }

  lemma FreshIsFunded(s: Ledger)
    requires Fresh(s)
    ensures Funded(s)
  {
    forall ms: seq<MarketId>, us: seq<User> | Roster(s, ms, us) ensures Float(s, ms, us) >= 0 {
      EmptySums(s, ms, us);
    }
  }

  /** In a funded state a withdrawal is refused only for the caller's own reasons or by the breaker,
      never because the vault is short. */
  lemma WithdrawAlwaysCovered(s: Ledger, user: User, asset: Asset, amount: int)
    requires Funded(s)
    ensures Withdraw(s, user, asset, amount).Ok? <==>
              (&& Admits(s.gate, WithdrawOp) && WithdrawalsAllowed(s.gate)
               && asset == Stellar && 0 < amount <= GetOr(s.balances, user, 0))
  {
    FundedCovers(s, 0, user);
    PoolNonNeg(s, 0);
  }

  /** In a funded state every Active bet can be cancelled until the market's end time. */
  lemma CancelAlwaysCovered(s: Ledger, user: User, m: MarketId)
    requires Funded(s)
    ensures CancelBetCall(s, user, m).Ok? <==>
              (var b := BookAt(s.books, m);
               && Admits(s.gate, CancelBet)
               && user in b.bets && b.bets[user].status == Active
               && b.market.Some? && s.now < b.market.value.endTime)
  {
    var b := BookAt(s.books, m);
    BookRecorded(s, m);
    FundedCovers(s, m, user);
    if user in b.bets && b.bets[user].status == Active {
      ActiveIsCovered(b, user);
      BalanceNonNeg(s, user);
    }
  }

  lemma BalanceNonNeg(s: Ledger, u: User)
    requires Recorded(s)
    ensures GetOr(s.balances, u, 0) >= 0
  {
  }

  /** The market takes bets at this moment: open, well formed, before its deadline, without a result. */
  predicate TakesBets(mk: Market, now: nat) {
    && mk.state == MarketActive && mk.winning.None?
    && (mk.minPoolSize.Some? ==> mk.minPoolSize.value >= 0)
    && mk.betDeadline <= mk.endTime
    && now < (if mk.betDeadline == 0 then mk.endTime else mk.betDeadline)
  }

  /** The amount is within the limits of the event, else the global ones, else the absolute ones. */
  predicate WithinLimits(s: Ledger, m: MarketId, amount: int) {
    if m in s.eventLimits then s.eventLimits[m].minBet <= amount <= s.eventLimits[m].maxBet
    else match s.globalLimits
      case Some(l) => l.minBet <= amount <= l.maxBet
      case None => 1_000_000 <= amount <= 100_000_000_000
  }

  /** On a market in order a bet is accepted exactly when breaker and both fee checks allow it, the market takes
      bets and knows the outcome, the amount is within the limits in force and in the wallet, the user has
      no bet there other than a cancelled one, and the bet counter has room. No sum can overflow. */
  lemma PlaceAcceptedIff(s: Ledger, user: User, r: BetRequest, maxFee: int)
    requires LimitsOk(s) && BookOk(BookAt(s.books, r.market))
    ensures PlaceBet(s, user, r, maxFee).Ok? <==>
              (var b := BookAt(s.books, r.market);
               && Admits(s.gate, Betting) && FirstFeeCheck(s.fees, maxFee) && SecondFeeCheck(s.fees, maxFee)
               && b.market.Some? && TakesBets(b.market.value, s.now) && r.outcome in b.market.value.outcomes
               && WithinLimits(s, r.market, r.amount) && r.amount <= GetOr(s.wallets, user, 0)
               && (user in b.bets ==> b.bets[user].status == Cancelled)
               && b.stats.totalBets < U32_MAX)
  {
    var b := BookAt(s.books, r.market);
    GuardsPassIff(s, maxFee);
    if GuardsPass(s, maxFee) {
      PlaceBetShape(s, user, r, maxFee);
      ValidIff(s, user, r);
      if Valid(s, user, r) {
        ValidAmount(s, user, r);
        PlaceSucceedsIff(b, NewBet(s, user, r), InvalidInput);
      }
    }
  }

  lemma ValidIff(s: Ledger, user: User, r: BetRequest)
    ensures Valid(s, user, r) <==>
              (var b := BookAt(s.books, r.market);
               && b.market.Some? && TakesBets(b.market.value, s.now) && r.outcome in b.market.value.outcomes
               && WithinLimits(s, r.market, r.amount)
               && (user in b.bets ==> b.bets[user].status == Cancelled))
  {
  }

  // ----- refunds -----

  /** The bets with the Active ones of the listed users refunded. */
  function RefundedBets(bets: map<User, Bet>, us: seq<User>): map<User, Bet> {
    map u | u in bets ::
      if u in us && bets[u].status == Active then bets[u].(status := Refunded) else bets[u]
  }

  function Due(b: Book, u: User): int {
    if u in b.bets && b.bets[u].status == Active then b.bets[u].amount else 0
  }

  /** After the walk over a duplicate-free part of the registry exactly its Active bettors have been
      paid, exactly once, and nothing else about the bets, registry or statistics has moved. */
  ghost predicate RefundedTo(s: Ledger, t: Ledger, m: MarketId, us: seq<User>) {
    var b, b' := BookAt(s.books, m), BookAt(t.books, m);
    && b'.bets == RefundedBets(b.bets, us) && b'.registry == b.registry && b'.stats == b.stats
    && b'.market.Some? == b.market.Some?
    && (forall u :: GetOr(t.wallets, u, 0) == GetOr(s.wallets, u, 0) + (if u in us then Due(b, u) else 0))
    && s.vault - t.vault == Pool(b) - Pool(b')
  }

  lemma RefundedSnoc(bets: map<User, Bet>, us: seq<User>, u: User)
    requires u !in us
    ensures RefundedBets(bets, us + [u]) ==
            if u in bets && bets[u].status == Active
            then RefundedBets(bets, us)[u := bets[u].(status := Refunded)] else RefundedBets(bets, us)
  {
  }

  lemma RefundBookEffect(b: Book, u: User)
    requires RecordOk(b) && u in b.bets && b.bets[u].status == Active && b.market.Some?
    ensures var b' := RefundInBook(b, b.market.value, b.bets[u]);
            && b'.bets == b.bets[u := b.bets[u].(status := Refunded)]
            && b'.registry == b.registry && b'.stats == b.stats
            && Pool(b') == Pool(b) - b.bets[u].amount
  {
    assert u in b.registry;
    RefundRecords(b, u);
  }

  lemma RefundNext(s: Ledger, mid: Ledger, m: MarketId, us: seq<User>, u: User)
    requires RecordOk(BookAt(s.books, m)) && Recorded(mid) && RefundedTo(s, mid, m, us)
    requires u !in us && u in BookAt(s.books, m).registry
    requires RefundOne(mid, m, u).Ok?
    ensures RefundedTo(s, RefundOne(mid, m, u).value, m, us + [u])
  {
    var b, bm := BookAt(s.books, m), BookAt(mid.books, m);
    BookRecorded(mid, m);
    RefundedSnoc(b.bets, us, u);
    RefundShape(mid, m, u);
    assert bm.bets[u] == b.bets[u];
    if b.bets[u].status == Active {
      RefundBookEffect(bm, u);
      RefundNextPaid(s, mid, m, us, u, RefundInBook(bm, bm.market.value, bm.bets[u]));
    }
  }

  lemma RefundNextPaid(s: Ledger, mid: Ledger, m: MarketId, us: seq<User>, u: User, b': Book)
    requires RefundedTo(s, mid, m, us) && u !in us
    requires var b := BookAt(s.books, m);
             && u in b.bets && b.bets[u].status == Active
             && b'.bets == RefundedBets(b.bets, us + [u]) && b'.registry == b.registry && b'.stats == b.stats
             && b.market.Some? && b'.market.Some?
             && Pool(b') == Pool(BookAt(mid.books, m)) - b.bets[u].amount
    ensures RefundedTo(s, Pay(mid, u, -BookAt(s.books, m).bets[u].amount).(books := mid.books[m := b']), m, us + [u])
  {
  }

  lemma {:induction false} RefundPrefix(s: Ledger, m: MarketId, us: seq<User>)
    requires Recorded(s) && NoDup(us) && forall u | u in us :: u in BookAt(s.books, m).registry
    requires RefundEach(s, m, us).Ok?
    ensures RefundedTo(s, RefundEach(s, m, us).value, m, us)
  {
    if us == [] {
      RefundedNone(s, m);
    } else {
      var k := |us| - 1;
      assert us == us[..k] + [us[k]];
      RefundPrefix(s, m, us[..k]);
      RefundOneMore(s, m, us[..k], us[k]);
    }
  }

  lemma RefundedNone(s: Ledger, m: MarketId)
    ensures RefundedTo(s, s, m, [])
  {
    assert RefundedBets(BookAt(s.books, m).bets, []) == BookAt(s.books, m).bets;
  }

  lemma RefundOneMore(s: Ledger, m: MarketId, us: seq<User>, u: User)
    requires Recorded(s) && RefundEach(s, m, us).Ok? && RefundedTo(s, RefundEach(s, m, us).value, m, us)
    requires u !in us && u in BookAt(s.books, m).registry
    requires RefundOne(RefundEach(s, m, us).value, m, u).Ok?
    ensures RefundedTo(s, RefundOne(RefundEach(s, m, us).value, m, u).value, m, us + [u])
  {
    RefundEachKeeps(s, m, us);
    BookRecorded(s, m);
    RefundNext(s, RefundEach(s, m, us).value, m, us, u);
  }

  /** Refunding a market pays every Active bettor the bet's amount once and nobody else anything,
      leaves no Active bet behind, and can be repeated without effect. */
  lemma RefundPaysEachOnce(s: Ledger, m: MarketId)
    requires Recorded(s) && RefundBets(s, m).Ok?
    ensures var t := RefundBets(s, m).value;
            var b, b' := BookAt(s.books, m), BookAt(t.books, m);
            && (forall u :: GetOr(t.wallets, u, 0) == GetOr(s.wallets, u, 0) + Due(b, u))
            && (forall u | u in b'.bets :: b'.bets[u].status != Active)
            && b'.bets.Keys == b.bets.Keys && b'.stats == b.stats
            && RefundBets(t, m) == Ok(t)
  {
    var b := BookAt(s.books, m);
    var t := RefundBets(s, m).value;
    BookRecorded(s, m);
    RefundPrefix(s, m, b.registry);
    assert forall u | u in b.bets :: u in b.registry;
    NothingToRefund(t, m, b.registry);
  }

  lemma {:induction false} NothingToRefund(t: Ledger, m: MarketId, us: seq<User>)
    requires forall u | u in BookAt(t.books, m).bets :: BookAt(t.books, m).bets[u].status != Active
    ensures RefundEach(t, m, us) == Ok(t)
  {
    if us == [] {
    } else {
      NothingToRefund(t, m, us[..|us| - 1]);
    }
  }

  /** In a funded state a refund of an existing market always goes through. */
  lemma RefundAlwaysCovered(s: Ledger, m: MarketId)
    requires Funded(s)
    ensures RefundBets(s, m).Ok? <==> BookAt(s.books, m).market.Some?
  {
    var b := BookAt(s.books, m);
    BookRecorded(s, m);
    FundedCovers(s, m, 0);
    BalanceNonNeg(s, 0);
    if b.market.Some? {
      RefundEachCovered(s, m, b.registry);
    }
  }

  lemma {:induction false} RefundEachCovered(s: Ledger, m: MarketId, us: seq<User>)
    requires Recorded(s) && NoDup(us) && forall u | u in us :: u in BookAt(s.books, m).registry
    requires Pool(BookAt(s.books, m)) <= s.vault
    ensures RefundEach(s, m, us).Ok?
  {
    if us == [] {
    } else {
      var k := |us| - 1;
      RefundEachCovered(s, m, us[..k]);
      RefundPrefix(s, m, us[..k]);
      RefundEachKeeps(s, m, us[..k]);
      RefundOneCovered(s, RefundEach(s, m, us[..k]).value, m, us[..k], us[k]);
    }
  }

  lemma RefundOneCovered(s: Ledger, mid: Ledger, m: MarketId, us: seq<User>, u: User)
    requires Recorded(mid) && RefundedTo(s, mid, m, us) && Pool(BookAt(s.books, m)) <= s.vault
    ensures RefundOne(mid, m, u).Ok?
  {
    var b := BookAt(mid.books, m);
    BookRecorded(mid, m);
    RefundShape(mid, m, u);
    if u in b.bets && b.bets[u].status == Active {
      ActiveIsCovered(b, u);
    }
  }

  // ----- place, then cancel -----

  /** Locking funds succeeds exactly when the wallet covers them; unlocking them again then succeeds and
      gives every wallet and the vault their tokens back. */
  lemma LockThenUnlock(s: Ledger, user: User, amount: int)
    requires s.vault >= 0
    ensures LockFunds(s, user, amount).Ok? <==> 0 <= amount <= GetOr(s.wallets, user, 0)
    ensures LockFunds(s, user, amount).Ok? ==>
              var undone := UnlockFunds(LockFunds(s, user, amount).value, user, amount);
              && undone.Ok? && undone.value.vault == s.vault
              && undone.value.(wallets := s.wallets) == s
              && forall u :: GetOr(undone.value.wallets, u, 0) == GetOr(s.wallets, u, 0)
  {
  }


  /** Counting a bet and taking it out again gives back the very same statistics, outcome keys included. */
  lemma StatsRoundTrip(b: Book, o: Outcome, amount: int)
    requires BookOk(b) && MIN_BET_AMOUNT <= amount <= MAX_BET_AMOUNT
    requires AddToStats(b.stats, o, amount).Ok?
    ensures RemoveFromStats(AddToStats(b.stats, o, amount).value, o, amount) == b.stats
  {
    BookBounds(b);
    assert OutcomeOk(b, o);
    var st := AddToStats(b.stats, o, amount).value;
    var t := GetOr(b.stats.outcomeTotals, o, 0);
    if t > 0 {
      assert b.stats.outcomeTotals[o := t + amount][o := t] == b.stats.outcomeTotals;
    } else {
      assert b.stats.outcomeTotals[o := t + amount] - {o} == b.stats.outcomeTotals;
    }
  }

  lemma MarketRoundTrip(b: Book, bet: Bet)
    requires BookOk(b) && b.market.Some? && CheckNotBet(b, bet.user).Pass?
    requires MIN_BET_AMOUNT <= bet.amount <= MAX_BET_AMOUNT
    ensures LeaveMarket(EnterMarket(b.market.value, bet), bet.user, bet.amount) == b.market.value
  {
    BookBounds(b);
    var mk := b.market.value;
    assert VoterOk(b, mk, bet.user);
    assert mk.votes[bet.user := bet.outcome] - {bet.user} == mk.votes;
    assert mk.stakes[bet.user := bet.amount] - {bet.user} == mk.stakes;
  }

  /** `t` is `s` in everything that carries value: every token, every other market, and this market's
      statistics and record. Only a cancelled bet and its registry entry are left behind. */
  ghost predicate OnlyCancelledBetAdded(s: Ledger, t: Ledger, m: MarketId, cancelled: Bet) {
    var b, c := BookAt(s.books, m), BookAt(t.books, m);
    && t.vault == s.vault && t.balances == s.balances
    && (forall u :: GetOr(t.wallets, u, 0) == GetOr(s.wallets, u, 0))
    && (forall x | x != m :: BookAt(t.books, x) == BookAt(s.books, x))
    && c.stats == b.stats && c.market == b.market
    && c.bets == b.bets[cancelled.user := cancelled]
    && c.registry == AddToRegistry(b.registry, cancelled.user)
  }

  /** A bet placed and cancelled on the spot leaves statistics, market record and every token where
      they were. */
  lemma PlaceThenCancel(s: Ledger, user: User, r: BetRequest, maxFee: int)
    requires LimitsOk(s) && BookOk(BookAt(s.books, r.market)) && s.vault >= 0 && PlaceBet(s, user, r, maxFee).Ok?
    ensures var undone := CancelBetCall(PlaceBet(s, user, r, maxFee).value, user, r.market);
            && undone.Ok?
            && OnlyCancelledBetAdded(s, undone.value, r.market, Bet(user, r.outcome, r.amount, s.now, Cancelled))
  {
    PlacedState(s, user, r, maxFee);
    BookRoundTrip(s, user, r);
    CancelUndoes(s, r.market, Record(s, s.books, user, r).value, NewBet(s, user, r));
  }

  /** Cancelling `bet` right after its book became `b1`, when that leads back to the old book. */
  lemma CancelUndoes(s: Ledger, m: MarketId, b1: Book, bet: Bet)
    requires s.vault >= 0 && Admits(s.gate, CancelBet)
    requires bet.amount >= 0 && bet.status == Active
    requires bet.user in b1.bets && b1.bets[bet.user] == bet
    requires b1.market.Some? && s.now < b1.market.value.endTime
    requires CancelInBook(b1, b1.market.value, bet) == WithCancelled(BookAt(s.books, m), bet)
    ensures var undone := CancelBetCall(Pay(s, bet.user, bet.amount).(books := s.books[m := b1]), bet.user, m);
            undone.Ok? && OnlyCancelledBetAdded(s, undone.value, m, bet.(status := Cancelled))
  {
    CancelSucceeds(Pay(s, bet.user, bet.amount).(books := s.books[m := b1]), bet.user, m);
    UndoPay(s, bet.user, bet.amount, m, b1, WithCancelled(BookAt(s.books, m), bet));
  }

  /** A book with only a cancelled copy of `bet` added. */
  function WithCancelled(b: Book, bet: Bet): Book {
    Book(b.bets[bet.user := bet.(status := Cancelled)], AddToRegistry(b.registry, bet.user), b.stats, b.market)
  }

  lemma UndoPay(s: Ledger, user: User, amount: int, m: MarketId, b1: Book, b2: Book)
    ensures var s1 := Pay(s, user, amount).(books := s.books[m := b1]);
            var s2 := Pay(s1, user, -amount).(books := s1.books[m := b2]);
            && s2.vault == s.vault && s2.balances == s.balances
            && (forall u :: GetOr(s2.wallets, u, 0) == GetOr(s.wallets, u, 0))
            && (forall x | x != m :: BookAt(s2.books, x) == BookAt(s.books, x))
            && BookAt(s2.books, m) == b2
  {
  }

  lemma PlacedState(s: Ledger, user: User, r: BetRequest, maxFee: int)
    requires LimitsOk(s) && PlaceBet(s, user, r, maxFee).Ok?
    ensures Valid(s, user, r) && Record(s, s.books, user, r).Ok? && r.amount >= MIN_BET_AMOUNT
    ensures Admits(s.gate, CancelBet) && s.now < BookAt(s.books, r.market).market.value.endTime
    ensures PlaceBet(s, user, r, maxFee).value ==
            Pay(s, user, r.amount).(books := s.books[r.market := Record(s, s.books, user, r).value])
  {
    PlaceBetShape(s, user, r, maxFee);
    ValidAmount(s, user, r);
  }

  lemma BookRoundTrip(s: Ledger, user: User, r: BetRequest)
    requires LimitsOk(s) && BookOk(BookAt(s.books, r.market)) && Valid(s, user, r) && Record(s, s.books, user, r).Ok?
    ensures var b := BookAt(s.books, r.market);
            var b1 := Record(s, s.books, user, r).value;
            var bet := NewBet(s, user, r);
            && user in b1.bets && b1.bets[user] == bet
            && b1.market.Some? && b1.market.value.endTime == b.market.value.endTime
            && CancelInBook(b1, b1.market.value, bet) == WithCancelled(b, bet)
  {
    var b := BookAt(s.books, r.market);
    ValidAmount(s, user, r);
    StatsRoundTrip(b, r.outcome, r.amount);
    MarketRoundTrip(b, NewBet(s, user, r));
  }

  lemma CancelSucceeds(s: Ledger, user: User, m: MarketId)
    requires var b := BookAt(s.books, m);
             && user in b.bets && b.bets[user].status == Active && 0 <= b.bets[user].amount <= s.vault
             && b.market.Some? && s.now < b.market.value.endTime && Admits(s.gate, CancelBet)
    ensures var b := BookAt(s.books, m);
            CancelBetCall(s, user, m) == Ok(Pay(s, user, -b.bets[user].amount)
                .(books := s.books[m := CancelInBook(b, b.market.value, b.bets[user])]))
  {
  }

  // ----- after the deadline -----

  ghost predicate Ended(s: Ledger, m: MarketId) {
    var b := BookAt(s.books, m);
    b.market.Some? && s.now >= b.market.value.endTime
  }

  /** The calls that may still change an ended market's book. */
  predicate Settles(step: Step, m: MarketId) {
    (step.DoRefund? || step.DoResolve? || step.Declare?) && step.market == m
  }

  lemma EndedRefuses(s: Ledger, r: BetRequest)
    requires Ended(s, r.market)
    ensures CheckRequest(s, r).Err?
  {
  }

  lemma {:induction false} EndedRefusesBatch(s: Ledger, user: User, rs: seq<BetRequest>, m: MarketId)
    requires Ended(s, m) && ValidateBatch(s, user, rs).Ok?
    ensures forall r | r in rs :: r.market != m
  {
    if rs == [] {
    } else {
      var k := |rs| - 1;
      EndedRefusesBatch(s, user, rs[..k], m);
      assert rs == rs[..k] + [rs[k]];
      if rs[k].market == m {
        EndedRefuses(s, rs[k]);
      }
    }
  }

  lemma FrozenBatch(s: Ledger, user: User, rs: seq<BetRequest>, maxFee: int, key: IdemKey, m: MarketId)
    requires Ended(s, m) && PlaceBets(s, user, rs, maxFee, key).Ok?
    ensures BookAt(PlaceBets(s, user, rs, maxFee, key).value.books, m) == BookAt(s.books, m)
    ensures PlaceBets(s, user, rs, maxFee, key).value.now == s.now
  {
    EndedRefusesBatch(s, user, rs, m);
    ValidateBatchLength(s, user, rs);
    StoreBatchFrame(s.books, user, rs, ValidateBatch(s, user, rs).value.0, s.now, m);
  }

  lemma FrozenCall(s: Ledger, step: Step, m: MarketId)
    requires Ended(s, m) && !Settles(step, m) && Call(s, step).Ok?
    ensures BookAt(Call(s, step).value.books, m) == BookAt(s.books, m)
    ensures Call(s, step).value.now >= s.now
  {
    match step
    case DoPlace(u, r, maxFee) =>
      if r.market == m {
        EndedRefuses(s, r);
      }
    case DoPlaceBatch(u, rs, maxFee, key) =>
      FrozenBatch(s, u, rs, maxFee, key, m);
    case DoRefund(x) =>
      RefundElsewhere(s, x, BookAt(s.books, x).registry, m);
    case _ =>
  }

  /** Once the clock has reached a market's end time, no deposit, bet, batch, cancellation or call on
      another market changes anything in its book, in whatever order they come: the payouts users will
      ask for do not depend on it. */
  lemma {:induction false} FrozenRun(s: Ledger, steps: seq<Step>, m: MarketId)
    requires Ended(s, m) && forall st | st in steps :: !Settles(st, m)
    ensures BookAt(Run(s, steps).books, m) == BookAt(s.books, m)
    ensures Ended(Run(s, steps), m)
  {
    if steps == [] {
    } else {
      var k := |steps| - 1;
      FrozenRun(s, steps[..k], m);
      var mid := Run(s, steps[..k]);
      if Call(mid, steps[k]).Ok? {
        FrozenCall(mid, steps[k], m);
      }
    }
  }

  /** Equal up to bet statuses and the declared result. */
  ghost predicate SamePool(b: Book, c: Book) {
    && c.stats == b.stats && c.registry == b.registry
    && c.bets.Keys == b.bets.Keys
    && (forall u | u in b.bets :: c.bets[u] == b.bets[u].(status := c.bets[u].status))
    && b.market.Some? && c.market.Some?
    && c.market.value == b.market.value.(state := c.market.value.state, winning := c.market.value.winning)
  }

  /** With resolutions and declarations allowed as well, revived bets or not, an ended market still keeps
      its pool, its statistics and everybody's stake; only statuses and the declared result move. */
  lemma {:induction false} FrozenPool(s: Ledger, steps: seq<Step>, m: MarketId)
    requires RegistryOk(BookAt(s.books, m)) && Ended(s, m)
    requires forall st | st in steps :: !(st.DoRefund? && st.market == m)
    ensures var t := Run(s, steps);
            && SamePool(BookAt(s.books, m), BookAt(t.books, m))
            && RegistryOk(BookAt(t.books, m)) && Ended(t, m)
  {
    if steps == [] {
    } else {
      var k := |steps| - 1;
      var mid := Run(s, steps[..k]);
      FrozenPool(s, steps[..k], m);
      if Call(mid, steps[k]).Ok? {
        if Settles(steps[k], m) {
          SettleSamePool(mid, steps[k], m);
        } else {
          FrozenCall(mid, steps[k], m);
        }
      }
    }
  }

  lemma SettleSamePool(s: Ledger, step: Step, m: MarketId)
    requires RegistryOk(BookAt(s.books, m)) && Ended(s, m) && Call(s, step).Ok?
    requires (step.DoResolve? || step.Declare?) && step.market == m
    ensures SamePool(BookAt(s.books, m), BookAt(Call(s, step).value.books, m))
    ensures RegistryOk(BookAt(Call(s, step).value.books, m)) && Ended(Call(s, step).value, m)
  {
    if step.DoResolve? {
      ResolveAll(BookAt(s.books, m), step.outcomes);
    }
  }

  // ----- what the market record says -----

  function SumOutcomes(st: BetStats, os: seq<Outcome>): int {
    if os == [] then 0 else SumOutcomes(st, os[..|os| - 1]) + GetOr(st.outcomeTotals, os[|os| - 1], 0)
  }

  function SumOn(b: Book, us: seq<User>, os: seq<Outcome>): int {
    if os == [] then 0 else SumOn(b, us, os[..|os| - 1]) + Total(OnOutcome(os[|os| - 1]), b.bets, us)
  }

  /** The outcome totals add up to the total amount locked. */
  lemma OutcomesAddUp(b: Book, os: seq<Outcome>)
    requires BookOk(b) && NoDup(os) && forall o | o in b.stats.outcomeTotals :: o in os
    ensures SumOutcomes(b.stats, os) == b.stats.totalLocked
  {
    forall u | u in b.registry && b.bets[u].status != Cancelled ensures b.bets[u].outcome in os {
      assert OutcomeOk(b, b.bets[u].outcome);
      WeightBelowTotal(OnOutcome(b.bets[u].outcome), b.bets, b.registry, u);
    }
    OutcomesAgree(b, os);
    OutcomesSplit(b, b.registry, os);
  }

  lemma {:induction false} OutcomesAgree(b: Book, os: seq<Outcome>)
    requires BookOk(b)
    ensures SumOutcomes(b.stats, os) == SumOn(b, b.registry, os)
  {
    if os == [] {
    } else {
      OutcomesAgree(b, os[..|os| - 1]);
      assert OutcomeOk(b, os[|os| - 1]);
    }
  }

  lemma {:induction false} OutcomesSplit(b: Book, us: seq<User>, os: seq<Outcome>)
    requires NoDup(os)
    requires forall u | u in us && u in b.bets && b.bets[u].status != Cancelled :: b.bets[u].outcome in os
    ensures SumOn(b, us, os) == Total(Locked, b.bets, us)
  {
    if us == [] {
      SumOnNobody(b, os);
    } else {
      var k := |us| - 1;
      OutcomesSplit(b, us[..k], os);
      SumOnSnoc(b, us[..k], us[k], os);
      assert us == us[..k] + [us[k]];
    }
  }

  lemma {:induction false} SumOnNobody(b: Book, os: seq<Outcome>)
    ensures SumOn(b, [], os) == 0
  {
    if os != [] {
      SumOnNobody(b, os[..|os| - 1]);
    }
  }

  lemma {:induction false} SumOnSnoc(b: Book, us: seq<User>, u: User, os: seq<Outcome>)
    requires NoDup(os)
    ensures SumOn(b, us + [u], os) == SumOn(b, us, os) +
              (if u in b.bets && b.bets[u].outcome in os then Weight(Locked, b.bets[u]) else 0)
  {
    if os != [] {
      SumOnSnoc(b, us, u, os[..|os| - 1]);
      assert (us + [u])[..|us|] == us;
    }
  }

  // ----- odds -----

  /** `calculate_implied_probability`, in whole percent. */
  function ImpliedProbability(st: BetStats, o: Outcome): int {
    if st.totalLocked == 0 then 0 else Quot(GetOr(st.outcomeTotals, o, 0) * 100, st.totalLocked)
  }

  function SumProbabilities(st: BetStats, os: seq<Outcome>): int {
    if os == [] then 0 else SumProbabilities(st, os[..|os| - 1]) + ImpliedProbability(st, os[|os| - 1])
  }

  function OutcomeAmounts(st: BetStats, os: seq<Outcome>): seq<int> {
    seq(|os|, i requires 0 <= i < |os| => GetOr(st.outcomeTotals, os[i], 0))
  }

  /** The implied probabilities of all outcomes add up to at most 100 percent, and when anything is
      locked they miss 100 by less than one percent per outcome. */
  lemma ProbabilitiesAddUp(b: Book, os: seq<Outcome>)
    requires BookOk(b) && NoDup(os) && forall o | o in b.stats.outcomeTotals :: o in os
    requires b.stats.totalLocked > 0
    ensures 100 - (|os| - 1) <= SumProbabilities(b.stats, os) <= 100
  {
    OutcomesAddUp(b, os);
    ProbabilitiesAreShares(b, os);
    assert os != [];
    SharesBounded(OutcomeAmounts(b.stats, os), 100, b.stats.totalLocked);
  }

  /** Neither product of the analytics calls can leave 128 bits: the outcome total times 100 of the
      implied probability, and the locked total times 100 of the payout multiplier. */
  lemma AnalyticsBounds(b: Book, o: Outcome)
    requires BookOk(b)
    ensures 0 <= GetOr(b.stats.outcomeTotals, o, 0) * 100 <= b.stats.totalLocked * 100 <= I128_MAX
  {
    BookBounds(b);
    assert OutcomeOk(b, o);
  }

  lemma {:induction false} ProbabilitiesAreShares(b: Book, os: seq<Outcome>)
    requires BookOk(b) && b.stats.totalLocked > 0
    ensures SumInts(OutcomeAmounts(b.stats, os)) == SumOutcomes(b.stats, os)
    ensures SumProbabilities(b.stats, os) == SumInts(Shares(OutcomeAmounts(b.stats, os), 100, b.stats.totalLocked))
  {
    if os != [] {
      var k := |os| - 1;
      ProbabilitiesAreShares(b, os[..k]);
      BookBounds(b);
      assert OutcomeOk(b, os[k]);
      assert OutcomeAmounts(b.stats, os)[..k] == OutcomeAmounts(b.stats, os[..k]);
      assert Shares(OutcomeAmounts(b.stats, os), 100, b.stats.totalLocked)[..k]
          == Shares(OutcomeAmounts(b.stats, os[..k]), 100, b.stats.totalLocked);
    }
  }

  // ----- the fee guard -----

  /** A caller passing a maximum fee of zero is documented as switching the guard off. The second fee
      check still runs: a zero maximum works like one that binds in neither check exactly when the second
      check passes with zero, or the bet fails anyway. */
  lemma ZeroMaxFeeBetIff(s: Ledger, user: User, r: BetRequest, maxFee: int)
    requires FirstFeeCheck(s.fees, maxFee) && SecondFeeCheck(s.fees, maxFee)
    ensures PlaceBet(s, user, r, 0).Ok? <==> SecondFeeCheck(s.fees, 0) && PlaceBet(s, user, r, maxFee).Ok?
    ensures SecondFeeCheck(s.fees, 0) ==> PlaceBet(s, user, r, 0) == PlaceBet(s, user, r, maxFee)
  {
  }

  /** The same for a batch. */
  lemma ZeroMaxFeeBatchIff(s: Ledger, user: User, rs: seq<BetRequest>, maxFee: int, key: IdemKey)
    requires FirstFeeCheck(s.fees, maxFee) && SecondFeeCheck(s.fees, maxFee)
    ensures PlaceBets(s, user, rs, 0, key).Ok? <==>
              SecondFeeCheck(s.fees, 0) && PlaceBets(s, user, rs, maxFee, key).Ok?
    ensures SecondFeeCheck(s.fees, 0) ==> PlaceBets(s, user, rs, 0, key) == PlaceBets(s, user, rs, maxFee, key)
  {
    if SecondFeeCheck(s.fees, 0) {
      assert CheckBatch(s, user, rs, 0, key) == CheckBatch(s, user, rs, maxFee, key);
    }
  }
}
