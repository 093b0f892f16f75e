/** What each call does to the stored state and what its errors mean, on the stored fields themselves. */
module BetCalls {
  import opened Common
  import opened BetLedger
  import opened BetInvariant
  import opened BetResolution
  import opened BetRecord
  import opened BetCover
  import opened BetPayout
  import opened BetBatch
  import opened BetBatchRecord
  import opened BetRuns
  import opened BetCoverRuns
  import opened BetGuarantees

  // ----- money in and out -----

  /** `delta` tokens go from the wallet of `user` to the vault (or back, when negative), and nothing else
      changes, apart from books, balances and keys. */
  ghost predicate PaysIn(s: Ledger, t: Ledger, user: User, delta: int) {
    && GetOr(t.wallets, user, 0) == GetOr(s.wallets, user, 0) - delta
    && (forall u | u != user :: GetOr(t.wallets, u, 0) == GetOr(s.wallets, u, 0))
    && t.vault == s.vault + delta
    && t == s.(wallets := t.wallets, vault := t.vault, books := t.books, balances := t.balances, consumed := t.consumed)
  }

  /** The internal balance of `user` changes by `delta` and no other does. */
  ghost predicate Credits(s: Ledger, t: Ledger, user: User, delta: int) {
    && GetOr(t.balances, user, 0) == GetOr(s.balances, user, 0) + delta
    && forall u | u != user :: GetOr(t.balances, u, 0) == GetOr(s.balances, u, 0)
  }

  /** A withdrawal moves exactly the amount asked for from the caller's balance to the caller's wallet. */
  lemma WithdrawEffect(s: Ledger, user: User, asset: Asset, amount: int)
    requires Withdraw(s, user, asset, amount).Ok?
    ensures var t := Withdraw(s, user, asset, amount).value;
            && PaysIn(s, t, user, -amount) && Credits(s, t, user, -amount)
            && t.books == s.books && t.consumed == s.consumed
  {
  }

  /** It succeeds exactly when breaker and pause options allow it, the asset is supported, and balance and
      vault cover a positive amount. */
  lemma WithdrawIff(s: Ledger, user: User, asset: Asset, amount: int)
    ensures Withdraw(s, user, asset, amount).Ok? <==>
              (&& Admits(s.gate, WithdrawOp) && WithdrawalsAllowed(s.gate)
               && asset == Stellar && 0 < amount <= GetOr(s.balances, user, 0) && amount <= s.vault)
  {
  }

  /** A deposit moves exactly the amount given from the caller's wallet to the caller's balance. */
  lemma DepositEffect(s: Ledger, user: User, asset: Asset, amount: int)
    requires Deposit(s, user, asset, amount).Ok?
    ensures var t := Deposit(s, user, asset, amount).value;
            && PaysIn(s, t, user, amount) && Credits(s, t, user, amount)
            && t.books == s.books && t.consumed == s.consumed
  {
  }

  /** It succeeds exactly when the breaker allows it, the asset is supported, and a positive amount of at most
      half the 128-bit range is in the wallet and fits on the balance. */
  lemma DepositIff(s: Ledger, user: User, asset: Asset, amount: int)
    requires Recorded(s)
    ensures Deposit(s, user, asset, amount).Ok? <==>
              (&& Admits(s.gate, DepositOp) && asset == Stellar
               && 0 < amount <= I128_MAX / 2 && amount <= GetOr(s.wallets, user, 0)
               && GetOr(s.balances, user, 0) + amount <= I128_MAX)
  {
  }

  /** What a withdrawal's error says is so. */
  lemma WithdrawErrors(s: Ledger, user: User, asset: Asset, amount: int)
    ensures var r := Withdraw(s, user, asset, amount);
            r.Err? ==>
              match r.error
              case CBOpen => !Admits(s.gate, WithdrawOp) || !WithdrawalsAllowed(s.gate)
              case InvalidInput => amount <= 0 || asset != Stellar
              case InsufficientBalance => amount > GetOr(s.balances, user, 0)
              case Trap => amount > s.vault
              case _ => false
  {
  }

  /** And a deposit's. */
  lemma DepositErrors(s: Ledger, user: User, asset: Asset, amount: int)
    requires Recorded(s)
    ensures var r := Deposit(s, user, asset, amount);
            r.Err? ==>
              match r.error
              case CBOpen => !Admits(s.gate, DepositOp)
              case InvalidInput =>
                || amount <= 0 || amount > I128_MAX / 2 || asset != Stellar
                || GetOr(s.balances, user, 0) + amount > I128_MAX
              case Trap => amount > GetOr(s.wallets, user, 0)
              case _ => false
  {
  }

  // ----- bets -----

  /** A bet pays its amount in and stores exactly the bet asked for, Active and stamped with the time; every
      other bet and every other market stay. */
  lemma PlaceEffect(s: Ledger, user: User, r: BetRequest, maxFee: int)
    requires LimitsOk(s) && PlaceBet(s, user, r, maxFee).Ok?
    ensures var t := PlaceBet(s, user, r, maxFee).value;
            && PaysIn(s, t, user, r.amount) && t.balances == s.balances && t.consumed == s.consumed
            && BookAt(t.books, r.market).bets
               == BookAt(s.books, r.market).bets[user := Bet(user, r.outcome, r.amount, s.now, Active)]
            && forall m | m != r.market :: BookAt(t.books, m) == BookAt(s.books, m)
  {
    PlaceBetShape(s, user, r, maxFee);
    ValidAmount(s, user, r);
  }

  /** What the error of a bet says is so. */
  lemma PlaceErrors(s: Ledger, user: User, r: BetRequest, maxFee: int)
    requires LimitsOk(s) && BookOk(BookAt(s.books, r.market))
    ensures var placed, b := PlaceBet(s, user, r, maxFee), BookAt(s.books, r.market);
            placed.Err? ==>
              match placed.error
              case CBOpen => !Admits(s.gate, Betting)
              case FeeExceedsMax => !FirstFeeCheck(s.fees, maxFee) || !SecondFeeCheck(s.fees, maxFee)
              case MarketNotFound => b.market.None?
              case AlreadyBet => user in b.bets && b.bets[user].status != Cancelled
              case Trap => r.amount > GetOr(s.wallets, user, 0) || b.stats.totalBets == U32_MAX
              case e => b.market.Some? && RequestError(s, b.market.value, r, e)
  {
    GuardsPassIff(s, maxFee);
    RequestErrors(s, r);
    if GuardsPass(s, maxFee) && Valid(s, user, r) && PlaceBet(s, user, r, maxFee).Err? {
      PlaceTraps(s, user, r, maxFee);
    }
  }

  lemma PlaceTraps(s: Ledger, user: User, r: BetRequest, maxFee: int)
    requires LimitsOk(s) && BookOk(BookAt(s.books, r.market)) && GuardsPass(s, maxFee) && Valid(s, user, r)
    requires PlaceBet(s, user, r, maxFee).Err?
    ensures PlaceBet(s, user, r, maxFee).error == Trap
    ensures r.amount > GetOr(s.wallets, user, 0) || BookAt(s.books, r.market).stats.totalBets == U32_MAX
  {
    ValidAmount(s, user, r);
    PlaceSucceedsIff(BookAt(s.books, r.market), NewBet(s, user, r), Trap);
  }

  /** What the error of a request to an existing market says. */
  predicate RequestError(s: Ledger, mk: Market, r: BetRequest, e: Error) {
    match e
    case MarketClosed =>
      mk.state != MarketActive || s.now >= (if mk.betDeadline == 0 then mk.endTime else mk.betDeadline)
    case InvalidState => (mk.minPoolSize.Some? && mk.minPoolSize.value < 0) || mk.betDeadline > mk.endTime
    case MarketResolved => mk.winning.Some?
    case InvalidOutcome => r.outcome !in mk.outcomes
    case InsufficientStake => r.amount < EffectiveLimits(s, r.market).minBet
    case InvalidInput => r.amount > EffectiveLimits(s, r.market).maxBet
    case _ => false
  }

  lemma RequestErrors(s: Ledger, r: BetRequest)
    ensures var checked, b := CheckRequest(s, r), BookAt(s.books, r.market);
            checked.Err? ==>
              if checked.error == MarketNotFound then b.market.None?
              else b.market.Some? && RequestError(s, b.market.value, r, checked.error)
  {
  }

  /** A cancellation pays the bet's amount back and marks that bet Cancelled, changing nothing else about it;
      every other bet and every other market stay. */
  lemma CancelEffect(s: Ledger, user: User, m: MarketId)
    requires Recorded(s) && CancelBetCall(s, user, m).Ok?
    ensures var t := CancelBetCall(s, user, m).value;
            var bets := BookAt(s.books, m).bets;
            && user in bets && bets[user].status == Active
            && PaysIn(s, t, user, -bets[user].amount) && t.balances == s.balances && t.consumed == s.consumed
            && BookAt(t.books, m).bets == bets[user := bets[user].(status := Cancelled)]
            && forall x | x != m :: BookAt(t.books, x) == BookAt(s.books, x)
  {
    CancelShape(s, user, m);
    BookRecorded(s, m);
  }

  /** What a cancellation's error says is so. */
  lemma CancelErrors(s: Ledger, user: User, m: MarketId)
    requires Funded(s)
    ensures var r, b := CancelBetCall(s, user, m), BookAt(s.books, m);
            r.Err? ==>
              match r.error
              case CBOpen => !Admits(s.gate, CancelBet)
              case NothingToClaim => user !in b.bets
              case InvalidState => user in b.bets && b.bets[user].status != Active
              case MarketClosed => b.market.Some? && s.now >= b.market.value.endTime
              case _ => false
  {
    CancelAlwaysCovered(s, user, m);
    BookRecorded(s, m);
    var b := BookAt(s.books, m);
    if user in b.bets && b.bets[user].status == Active {
      ActiveIsCovered(b, user);
    }
  }

  /** A refund marks every Active bet Refunded, changing nothing else about it, and touches no other bet, no other
      market, no internal balance. */
  lemma RefundEffect(s: Ledger, m: MarketId)
    requires Recorded(s) && RefundBets(s, m).Ok?
    ensures var t := RefundBets(s, m).value;
            var bets := BookAt(s.books, m).bets;
            && BookAt(t.books, m).bets
               == (map u | u in bets :: if bets[u].status == Active then bets[u].(status := Refunded) else bets[u])
            && t == s.(wallets := t.wallets, vault := t.vault, books := t.books)
            && forall x | x != m :: BookAt(t.books, x) == BookAt(s.books, x)
  {
    var b := BookAt(s.books, m);
    BookRecorded(s, m);
    RefundPrefix(s, m, b.registry);
    assert forall u | u in b.bets :: u in b.registry;
    RefundFrame(s, m, b.registry);
    forall x | x != m ensures BookAt(RefundBets(s, m).value.books, x) == BookAt(s.books, x) {
      RefundElsewhere(s, m, b.registry, x);
    }
  }

  lemma {:induction false} RefundFrame(s: Ledger, m: MarketId, us: seq<User>)
    requires RefundEach(s, m, us).Ok?
    ensures var t := RefundEach(s, m, us).value; t == s.(wallets := t.wallets, vault := t.vault, books := t.books)
  {
    if us == [] {
    } else {
      RefundFrame(s, m, us[..|us| - 1]);
    }
  }

  /** A resolution settles every bet of its market and touches no other market, no token and no setting. */
  lemma ResolveEffect(s: Ledger, m: MarketId, ws: seq<Outcome>)
    requires Recorded(s)
    ensures var t, b := ResolveBets(s, m, ws), BookAt(s.books, m);
            && BookAt(t.books, m) == b.(bets := map u | u in b.bets :: Settle(b.bets[u], ws))
            && t == s.(books := t.books)
            && forall x | x != m :: BookAt(t.books, x) == BookAt(s.books, x)
  {
    BookRecorded(s, m);
    ResolveAll(BookAt(s.books, m), ws);
  }

  // ----- batches -----

  /** An error of the first pass is the error of one of the entries. */
  lemma {:induction false} ValidateErrors(s: Ledger, user: User, rs: seq<BetRequest>)
    requires LimitsOk(s) && |rs| <= MAX_BATCH_SIZE && ValidateBatch(s, user, rs).Err?
    ensures var e := ValidateBatch(s, user, rs).error;
            exists r :: r in rs && EntryError(s, user, r, e)
  {
    var k := |rs| - 1;
    assert rs == rs[..k] + [rs[k]];
    ValidateBatchIff(s, user, rs[..k]);
    if ValidateBatch(s, user, rs[..k]).Err? {
      ValidateErrors(s, user, rs[..k]);
      var r :| r in rs[..k] && EntryError(s, user, r, ValidateBatch(s, user, rs).error);
      assert r in rs;
    } else {
      RequestErrors(s, rs[k]);
      if CheckRequest(s, rs[k]).Ok? && CheckNotBet(BookAt(s.books, rs[k].market), user).Pass? {
        ValidAmount(s, user, rs[k]);
      }
      assert EntryError(s, user, rs[k], ValidateBatch(s, user, rs).error);
    }
  }

  predicate EntryError(s: Ledger, user: User, r: BetRequest, e: Error) {
    var b := BookAt(s.books, r.market);
    match e
    case MarketNotFound => b.market.None?
    case AlreadyBet => user in b.bets && b.bets[user].status != Cancelled
    case _ => b.market.Some? && RequestError(s, b.market.value, r, e)
  }

  /** The statistics after `n` more bets on a market, as far as their limits are concerned. */
  ghost predicate GrownBy(st: BetStats, st': BetStats, n: nat) {
    && st'.totalBets == st.totalBets + n && st'.uniqueBettors == st.uniqueBettors + n
    && 0 <= st'.totalLocked <= st.totalLocked + n * MAX_BET_AMOUNT
    && forall o :: 0 <= GetOr(st'.outcomeTotals, o, 0) <= GetOr(st.outcomeTotals, o, 0) + n * MAX_BET_AMOUNT
  }

  lemma {:induction false} TimesAtMost(rs: seq<BetRequest>, m: MarketId)
    ensures Times(rs, m) <= |rs|
  {
    if rs != [] {
      TimesAtMost(rs[..|rs| - 1], m);
    }
  }

  /** One more entry is recorded as long as the counter has room, and grows the statistics by one. */
  lemma RecordGrows(b: Book, mid: Book, bet: Bet, n: nat)
    requires BookOk(b) && b.market.Some? && MIN_BET_AMOUNT <= bet.amount <= MAX_BET_AMOUNT && n < 50
    requires GrownBy(b.stats, mid.stats, n)
    ensures PlaceInBook(mid, b.market.value, bet, InvalidInput).Ok? <==> b.stats.totalBets + n < U32_MAX
    ensures PlaceInBook(mid, b.market.value, bet, InvalidInput).Ok? ==>
              GrownBy(b.stats, PlaceInBook(mid, b.market.value, bet, InvalidInput).value.stats, n + 1)
  {
    BookBounds(b);
    assert OutcomeOk(b, bet.outcome);
    if PlaceInBook(mid, b.market.value, bet, InvalidInput).Ok? {
      AddGrows(b.stats, mid.stats, PlaceInBook(mid, b.market.value, bet, InvalidInput).value.stats, bet, n);
    }
  }

  lemma AddGrows(st: BetStats, mid: BetStats, st': BetStats, bet: Bet, n: nat)
    requires GrownBy(st, mid, n) && 0 <= bet.amount <= MAX_BET_AMOUNT
    requires AddToStats(mid, bet.outcome, bet.amount) == Ok(st')
    ensures GrownBy(st, st', n + 1)
  {
    AddedStats(mid, bet.outcome, bet.amount, st');
    assert (n + 1) * MAX_BET_AMOUNT == n * MAX_BET_AMOUNT + MAX_BET_AMOUNT;
  }

  lemma NothingGrown(b: Book)
    requires BookOk(b)
    ensures GrownBy(b.stats, b.stats, 0)
  {
    BookBounds(b);
    forall o ensures 0 <= GetOr(b.stats.outcomeTotals, o, 0) {
      assert OutcomeOk(b, o);
    }
  }

  /** Every market's bet counter has room for the entries naming it. */
  ghost predicate CountersFit(s: Ledger, rs: seq<BetRequest>) {
    forall m :: BookAt(s.books, m).stats.totalBets + Times(rs, m) <= U32_MAX
  }

  lemma FitPrefix(s: Ledger, rs: seq<BetRequest>)
    requires rs != [] && CountersFit(s, rs)
    ensures CountersFit(s, rs[..|rs| - 1])
  {
    forall m ensures BookAt(s.books, m).stats.totalBets + Times(rs[..|rs| - 1], m) <= U32_MAX {
      assert BookAt(s.books, m).stats.totalBets + Times(rs, m) <= U32_MAX;
    }
  }

  ghost predicate AllGrown(s: Ledger, user: User, rs: seq<BetRequest>)
    requires Stored(s, user, rs)
  {
    forall m :: GrownBy(BookAt(s.books, m).stats, BookAt(StoredBooks(s, user, rs), m).stats, Times(rs, m))
  }

  /** Valid entries are all recorded exactly when the counters have room, and grow each market's statistics. */
  lemma {:induction false} StoredIff(s: Ledger, user: User, rs: seq<BetRequest>)
    requires Inv(s) && AllValid(s, user, rs) && |rs| <= 50
    ensures Stored(s, user, rs) <==> CountersFit(s, rs)
    ensures Stored(s, user, rs) ==> AllGrown(s, user, rs)
  {
    if rs == [] {
      forall m ensures GrownBy(BookAt(s.books, m).stats, BookAt(s.books, m).stats, 0) {
        BookAtOk(s, m);
        NothingGrown(BookAt(s.books, m));
      }
    } else {
      var k := |rs| - 1;
      assert rs == rs[..k] + [rs[k]];
      StoredSnoc(s, user, rs[..k], rs[k]);
      StoredIff(s, user, rs[..k]);
      if Stored(s, user, rs[..k]) {
        StoredIffNext(s, user, rs[..k], rs[k]);
      } else if CountersFit(s, rs) {
        FitPrefix(s, rs);
      }
    }
  }

  lemma TimesSnoc(rs: seq<BetRequest>, r: BetRequest, m: MarketId)
    ensures Times(rs + [r], m) == Times(rs, m) + (if m == r.market then 1 else 0)
  {
    assert (rs + [r])[..|rs|] == rs;
  }

  lemma FitSnoc(s: Ledger, rs: seq<BetRequest>, r: BetRequest)
    requires CountersFit(s, rs)
    ensures CountersFit(s, rs + [r]) <==> BookAt(s.books, r.market).stats.totalBets + Times(rs, r.market) < U32_MAX
  {
    TimesSnoc(rs, r, r.market);
    if BookAt(s.books, r.market).stats.totalBets + Times(rs, r.market) < U32_MAX {
      forall m ensures BookAt(s.books, m).stats.totalBets + Times(rs + [r], m) <= U32_MAX {
        TimesSnoc(rs, r, m);
        assert BookAt(s.books, m).stats.totalBets + Times(rs, m) <= U32_MAX;
      }
    } else {
      assert !(BookAt(s.books, r.market).stats.totalBets + Times(rs + [r], r.market) <= U32_MAX);
    }
  }

  lemma EntryGrows(s: Ledger, user: User, rs: seq<BetRequest>, r: BetRequest)
    requires Inv(s) && Stored(s, user, rs) && Valid(s, user, r) && |rs| < 50 && AllGrown(s, user, rs)
    ensures var recorded := Record(s, StoredBooks(s, user, rs), user, r);
            && (recorded.Ok? <==> BookAt(s.books, r.market).stats.totalBets + Times(rs, r.market) < U32_MAX)
            && (recorded.Ok? ==>
                GrownBy(BookAt(s.books, r.market).stats, recorded.value.stats, Times(rs, r.market) + 1))
  {
    var b, mid := BookAt(s.books, r.market), BookAt(StoredBooks(s, user, rs), r.market);
    BookAtOk(s, r.market);
    ValidAmount(s, user, r);
    TimesAtMost(rs, r.market);
    assert GrownBy(b.stats, mid.stats, Times(rs, r.market));
    RecordGrows(b, mid, NewBet(s, user, r), Times(rs, r.market));
  }

  lemma StoredIffNext(s: Ledger, user: User, rs: seq<BetRequest>, r: BetRequest)
    requires Inv(s) && Stored(s, user, rs) && Valid(s, user, r) && |rs| < 50 && CountersFit(s, rs)
    requires AllGrown(s, user, rs)
    ensures Stored(s, user, rs + [r]) <==> CountersFit(s, rs + [r])
    ensures Stored(s, user, rs + [r]) ==> AllGrown(s, user, rs + [r])
  {
    EntryGrows(s, user, rs, r);
    FitSnoc(s, rs, r);
    StoredSnoc(s, user, rs, r);
    if Stored(s, user, rs + [r]) {
      forall m
        ensures GrownBy(BookAt(s.books, m).stats, BookAt(StoredBooks(s, user, rs + [r]), m).stats, Times(rs + [r], m))
      {
        TimesSnoc(rs, r, m);
        assert GrownBy(BookAt(s.books, m).stats, BookAt(StoredBooks(s, user, rs), m).stats, Times(rs, m));
      }
    }
  }

  /** In an ordered ledger a batch, repeated markets included, is accepted exactly when breaker, fee checks, size and
      key allow it, every entry is valid as it stands, the wallet covers the sum, and every market's bet
      counter has room for the entries naming it. */
  lemma BatchAcceptedIff(s: Ledger, user: User, rs: seq<BetRequest>, maxFee: int, key: IdemKey)
    requires Inv(s)
    ensures PlaceBets(s, user, rs, maxFee, key).Ok? <==>
              (&& Admits(s.gate, Betting) && FirstFeeCheck(s.fees, maxFee) && SecondFeeCheck(s.fees, maxFee)
               && 0 < |rs| <= 50 && (user, key) !in s.consumed
               && AllValid(s, user, rs) && Amount(rs) <= GetOr(s.wallets, user, 0) && CountersFit(s, rs))
  {
    BatchAdmittedIff(s, user, rs, maxFee, key);
    GuardsPassIff(s, maxFee);
    if CheckBatch(s, user, rs, maxFee, key).Pass? {
      BatchShape(s, user, rs, maxFee, key);
      if AllValid(s, user, rs) {
        StoredIff(s, user, rs);
      }
    }
  }

  /** What the error of a batch says is so; an entry's error may come from any of the entries. */
  lemma BatchErrors(s: Ledger, user: User, rs: seq<BetRequest>, maxFee: int, key: IdemKey)
    requires LimitsOk(s) && PlaceBets(s, user, rs, maxFee, key).Err?
    ensures var e := PlaceBets(s, user, rs, maxFee, key).error;
            || (e == CBOpen && !Admits(s.gate, Betting))
            || (e == IdempotentBatchAlreadyApplied && (user, key) in s.consumed)
            || (e == FeeExceedsMax && !(FirstFeeCheck(s.fees, maxFee) && SecondFeeCheck(s.fees, maxFee)))
            || (e == InvalidInput && !(0 < |rs| <= 50))
            || (exists r :: r in rs && EntryError(s, user, r, e))
            || (e == Trap && AllValid(s, user, rs) && Amount(rs) > GetOr(s.wallets, user, 0))
            || (AllValid(s, user, rs) && StoreBatch(s.books, user, rs, SnapshotOf(s, rs), s.now) == Err(e))
  {
    BatchAdmittedIff(s, user, rs, maxFee, key);
    if CheckBatch(s, user, rs, maxFee, key).Pass? {
      ValidateBatchIff(s, user, rs);
      if ValidateBatch(s, user, rs).Err? {
        ValidateErrors(s, user, rs);
      }
    }
  }

  // ----- payouts and odds -----

  /** Who is paid nothing, and what the errors of a payout say: a bet that is not Won is worth exactly nothing,
      at any stage of its market, and only a user without a bet has nothing to claim. */
  lemma PayoutCases(b: Book, u: User, feeAt: nat -> int)
    ensures var p := Payout(b, u, feeAt);
            && (u !in b.bets <==> p == Err(NothingToClaim))
            && (u in b.bets && b.bets[u].status != Won ==> p == Ok(0))
            && (u in b.bets && b.bets[u].status == Won ==>
                && (p == Err(MarketNotFound) <==> b.market.None?)
                && (p == Err(MarketNotResolved) <==> b.market.Some? && b.market.value.winning.None?)
                && (b.market.Some? && b.market.value.winning.Some?
                    && (b.market.value.winning.value == [] || GetOr(b.stats.outcomeTotals, b.bets[u].outcome, 0) == 0)
                    ==> p == Ok(0)))
  {
  }

  /** An implied probability is the outcome's share of what is locked, in percent, rounded down. */
  lemma ImpliedProbabilityIs(b: Book, o: Outcome)
    requires BookOk(b)
    ensures b.stats.totalLocked == 0 ==> ImpliedProbability(b.stats, o) == 0
    ensures b.stats.totalLocked > 0 ==>
              var p := ImpliedProbability(b.stats, o);
              b.stats.totalLocked * p <= Sum(OnOutcome(o), b) * 100 < b.stats.totalLocked * p + b.stats.totalLocked
  {
    AnalyticsBounds(b, o);
    assert OutcomeOk(b, o);
    if b.stats.totalLocked > 0 {
      DivBounds(Sum(OnOutcome(o), b) * 100, b.stats.totalLocked);
    }
  }
}
