/** The stateful contract: storage as fields, the calls as methods that read, write and loop the way
    the contract does. Each method is tied to the ledger function it implements: the state it leaves,
    the state it leaves on failure, and the error it reports. */
module BetManager {
  import opened Common
  import opened BetLedger
  import opened BetRecord
  import opened BetBatch
  import opened BetBatchRecord
  import opened BetRuns

  /** A failing prefix makes the whole first pass fail in the same way. */
  lemma {:induction false} ValidateBatchFails(s: Ledger, user: User, rs: seq<BetRequest>, n: nat)
    requires n <= |rs| && ValidateBatch(s, user, rs[..n]).Err?
    ensures ValidateBatch(s, user, rs) == Err(ValidateBatch(s, user, rs[..n]).error)
  {
    if n == |rs| {
      assert rs[..n] == rs;
    } else {
      assert rs[..|rs| - 1][..n] == rs[..n];
      ValidateBatchFails(s, user, rs[..|rs| - 1], n);
    }
  }

  lemma {:induction false} StoreBatchFails(
      books: map<MarketId, Book>, user: User, rs: seq<BetRequest>, mks: seq<Market>, now: nat, n: nat)
    requires |mks| == |rs| && n <= |rs| && StoreBatch(books, user, rs[..n], mks[..n], now).Err?
    ensures StoreBatch(books, user, rs, mks, now) == Err(StoreBatch(books, user, rs[..n], mks[..n], now).error)
  {
    if n == |rs| {
      assert rs[..n] == rs && mks[..n] == mks;
    } else {
      var k := |rs| - 1;
      assert rs[..k][..n] == rs[..n] && mks[..k][..n] == mks[..n];
      StoreBatchFails(books, user, rs[..k], mks[..k], now, n);
    }
  }

  /** One more entry of the third pass. */
  lemma StoreBatchNext(books: map<MarketId, Book>, user: User, rs: seq<BetRequest>, mks: seq<Market>, now: nat, n: nat)
    requires |mks| == |rs| && n < |rs| && StoreBatch(books, user, rs[..n], mks[..n], now).Ok?
    ensures var mid := StoreBatch(books, user, rs[..n], mks[..n], now).value;
            var bet := Bet(user, rs[n].outcome, rs[n].amount, now, Active);
            var placed := PlaceInBook(BookAt(mid, rs[n].market), mks[n], bet, InvalidInput);
            && StoreBatch(books, user, rs[..n + 1], mks[..n + 1], now)
               == (if placed.Ok? then Ok(mid[rs[n].market := placed.value]) else Err(placed.error))
            && NewBets(user, rs[..n + 1], now) == NewBets(user, rs[..n], now) + [bet]
  {
    assert rs[..n + 1][..n] == rs[..n] && mks[..n + 1][..n] == mks[..n];
  }

  lemma {:induction false} RefundEachFails(s: Ledger, m: MarketId, us: seq<User>, n: nat)
    requires n <= |us| && RefundEach(s, m, us[..n]).Err?
    ensures RefundEach(s, m, us) == Err(RefundEach(s, m, us[..n]).error)
  {
    if n == |us| {
      assert us[..n] == us;
    } else {
      assert us[..|us| - 1][..n] == us[..n];
      RefundEachFails(s, m, us[..|us| - 1], n);
    }
  }

  /** A state in which the market record of `m` is the copy a call is working on. */
  function WithMarket(s: Ledger, m: MarketId, mk: Market): Ledger {
    s.(books := s.books[m := BookAt(s.books, m).(market := Some(mk))])
  }

  class BetManager {
    var books: map<MarketId, Book>
    var wallets: map<User, int>
    var vault: int
    var balances: map<User, int>
    var consumed: set<(User, IdemKey)>
    var globalLimits: Option<Limits>
    var eventLimits: map<MarketId, Limits>
    var fees: FeeSources
    var gate: Gate
    var now: nat

    constructor (wallets: map<User, int>, fees: FeeSources, now: nat)
      ensures Model() == Ledger(map[], wallets, 0, map[], {}, None, map[], fees, Gate.Closed, now)
      ensures Valid() && Fresh(Model())
    {
      this.books, this.wallets, this.vault, this.balances := map[], wallets, 0, map[];
      this.consumed, this.globalLimits, this.eventLimits := {}, None, map[];
      this.fees, this.gate, this.now := fees, Gate.Closed, now;
    }

    function Model(): Ledger
      reads this
    {
      Ledger(books, wallets, vault, balances, consumed, globalLimits, eventLimits, fees, gate, now)
    }

    /** What every call keeps: the market records are in order, so every token is accounted for. */
    ghost predicate Valid()
      reads this
    {
      Recorded(Model())
    }

    /** Host rollback of a failed call. */
    method Rollback(saved: Ledger)
      modifies this
      ensures Model() == saved
    {
      books, wallets, vault, balances := saved.books, saved.wallets, saved.vault, saved.balances;
      consumed, globalLimits, eventLimits := saved.consumed, saved.globalLimits, saved.eventLimits;
      fees, gate, now := saved.fees, saved.gate, saved.now;
    }

    // ----- token moves -----

    method LockFunds(user: User, amount: int) returns (outcome: Result<()>)
      modifies this`wallets, this`vault
      ensures Follows(outcome, old(Model()), Model(), BetLedger.LockFunds(old(Model()), user, amount))
    {
      if !(0 <= amount <= GetOr(wallets, user, 0)) {
        return Err(Trap);
      }
      wallets := wallets[user := GetOr(wallets, user, 0) - amount];
      vault := vault + amount;
      return Ok(());
    }

    method UnlockFunds(user: User, amount: int) returns (outcome: Result<()>)
      modifies this`wallets, this`vault
      ensures Follows(outcome, old(Model()), Model(), BetLedger.UnlockFunds(old(Model()), user, amount))
    {
      if !(0 <= amount <= vault) {
        return Err(Trap);
      }
      vault := vault - amount;
      wallets := wallets[user := GetOr(wallets, user, 0) + amount];
      return Ok(());
    }

    // ----- bet storage -----

    method AddToBetRegistry(m: MarketId, user: User)
      modifies this`books
      ensures books == old(books)[m := BookAt(old(books), m)
                .(registry := BetLedger.AddToRegistry(BookAt(old(books), m).registry, user))]
    {
      var registry := BookAt(books, m).registry;
      var found := false;
      var i := 0;
      while i < |registry| && !found
        invariant 0 <= i <= |registry|
        invariant found <==> user in registry[..i]
      {
        if registry[i] == user {
          found := true;
        }
        i := i + 1;
      }
      assert registry[..|registry|] == registry;
      if !found {
        registry := registry + [user];
      }
      books := books[m := BookAt(books, m).(registry := registry)];
    }

    method StoreBet(m: MarketId, bet: Bet)
      modifies this`books
      ensures books == old(books)[m := BetLedger.StoreBet(BookAt(old(books), m), bet)]
    {
      var b := BookAt(books, m);
      books := books[m := b.(bets := b.bets[bet.user := bet])];
      AddToBetRegistry(m, bet.user);
    }

    method UpdateMarketBetStats(m: MarketId, outcome: Outcome, amount: int) returns (done: Result<()>)
      modifies this`books
      ensures var spec := AddToStats(BookAt(old(books), m).stats, outcome, amount);
              if spec.Ok?
              then done.Ok? && books == old(books)[m := BookAt(old(books), m).(stats := spec.value)]
              else done == Err(spec.error) && books == old(books)
    {
      var b := BookAt(books, m);
      var stats := b.stats;
      if stats.totalBets + 1 > U32_MAX || !InI128(stats.totalLocked + amount) || stats.uniqueBettors + 1 > U32_MAX {
        return Err(Trap);
      }
      stats := stats.(totalBets := stats.totalBets + 1);
      stats := stats.(totalLocked := stats.totalLocked + amount);
      stats := stats.(uniqueBettors := stats.uniqueBettors + 1);
      var current := GetOr(stats.outcomeTotals, outcome, 0);
      if !InI128(current + amount) {
        return Err(Trap);
      }
      stats := stats.(outcomeTotals := stats.outcomeTotals[outcome := current + amount]);
      books := books[m := b.(stats := stats)];
      return Ok(());
    }

    method UpdateMarketBetStatsOnCancel(m: MarketId, outcome: Outcome, amount: int)
      modifies this`books
      ensures books == old(books)[m := BookAt(old(books), m)
                .(stats := RemoveFromStats(BookAt(old(books), m).stats, outcome, amount))]
    {
      var b := BookAt(books, m);
      var stats := b.stats;
      stats := stats.(totalBets := SatSubU32(stats.totalBets, 1));
      stats := stats.(totalLocked := SatSubI128(stats.totalLocked, amount));
      stats := stats.(uniqueBettors := SatSubU32(stats.uniqueBettors, 1));
      var left := SatSubI128(GetOr(stats.outcomeTotals, outcome, 0), amount);
      if left > 0 {
        stats := stats.(outcomeTotals := stats.outcomeTotals[outcome := left]);
      } else {
        stats := stats.(outcomeTotals := stats.outcomeTotals - {outcome});
      }
      books := books[m := b.(stats := stats)];
    }

    method UpdateMarket(m: MarketId, mk: Market)
      modifies this`books
      ensures books == old(books)[m := BookAt(old(books), m).(market := Some(mk))]
    {
      books := books[m := BookAt(books, m).(market := Some(mk))];
    }

    /** The part a single bet and a batch share: store the bet, count it, enter it in the market record. */
    method EnterBet(m: MarketId, mk: Market, bet: Bet, overflow: Error) returns (done: Result<()>)
      modifies this`books
      ensures var spec := PlaceInBook(BookAt(old(books), m), mk, bet, overflow);
              if spec.Ok? then done.Ok? && books == old(books)[m := spec.value] else done == Err(spec.error)
    {
      StoreBet(m, bet);
      var counted := UpdateMarketBetStats(m, bet.outcome, bet.amount);
      if counted.Err? {
        return Err(counted.error);
      }
      var market := mk;
      if !InI128(market.totalStaked + bet.amount) {
        return Err(overflow);
      }
      market := market.(totalStaked := market.totalStaked + bet.amount);
      market := market.(votes := market.votes[bet.user := bet.outcome]);
      market := market.(stakes := market.stakes[bet.user := bet.amount]);
      UpdateMarket(m, market);
      return Ok(());
    }

    // ----- the calls -----

    method PlaceBet(user: User, r: BetRequest, maxFee: int) returns (outcome: Result<Bet>)
      requires Valid()
      modifies this
      ensures Follows(outcome, old(Model()), Model(), BetLedger.PlaceBet(old(Model()), user, r, maxFee))
      ensures outcome.Ok? ==> outcome.value == BookAt(books, r.market).bets[user]
      ensures Valid() && (outcome.Ok? ==> Balanced(old(Model()), Model()))
      ensures outcome.Ok? ==> outcome.value == Bet(user, r.outcome, r.amount, old(now), Active)
      ensures outcome.Ok? ==> FirstFeeCheck(old(fees), maxFee) && SecondFeeCheck(old(fees), maxFee)
    {
      GuardsPassIff(Model(), maxFee);
      outcome := PlaceBetInner(user, r, maxFee);
      StepRecords(old(Model()), DoPlace(user, r, maxFee));
    }

    method PlaceBetInner(user: User, r: BetRequest, maxFee: int) returns (outcome: Result<Bet>)
      modifies this
      ensures Follows(outcome, old(Model()), Model(), BetLedger.PlaceBet(old(Model()), user, r, maxFee))
      ensures outcome.Ok? ==> outcome.value == BookAt(books, r.market).bets[user]
      ensures outcome.Ok? ==> outcome.value == Bet(user, r.outcome, r.amount, old(now), Active)
    {
      var saved := Model();
      if !Admits(gate, Betting) {
        return Err(CBOpen);
      }
      if maxFee > 0 && LiveFee(fees) > maxFee {
        return Err(FeeExceedsMax);
      }
      var checked := CheckRequest(Model(), r);
      if checked.Err? {
        return Err(checked.error);
      }
      if SlippageFee(fees) > maxFee {
        return Err(FeeExceedsMax);
      }
      var b := BookAt(books, r.market);
      if user in b.bets && b.bets[user].status != Cancelled {
        return Err(AlreadyBet);
      }
      var locked := LockFunds(user, r.amount);
      if locked.Err? {
        return Err(locked.error);
      }
      var bet := Bet(user, r.outcome, r.amount, now, Active);
      var entered := EnterBet(r.market, checked.value, bet, Trap);
      if entered.Err? {
        Rollback(saved);
        return Err(entered.error);
      }
      return Ok(bet);
    }

    method PlaceBets(user: User, rs: seq<BetRequest>, maxFee: int, key: IdemKey) returns (outcome: Result<seq<Bet>>)
      requires Valid()
      modifies this
      ensures Follows(outcome, old(Model()), Model(), BetLedger.PlaceBets(old(Model()), user, rs, maxFee, key))
      ensures outcome.Ok? ==> outcome.value == NewBets(user, rs, old(now))
      ensures Valid() && (outcome.Ok? ==> Accounted(old(Model()), Model(), user, Overpaid(rs)))
      ensures outcome.Ok? ==> FirstFeeCheck(old(fees), maxFee) && SecondFeeCheck(old(fees), maxFee)
    {
      outcome := PlaceBetsInner(user, rs, maxFee, key);
      BatchFeesPassed(old(Model()), user, rs, maxFee, key);
      StepRecords(old(Model()), DoPlaceBatch(user, rs, maxFee, key));
    }

    /** The three passes of a batch. */
    method PlaceBetsInner(user: User, rs: seq<BetRequest>, maxFee: int, key: IdemKey)
      returns (outcome: Result<seq<Bet>>)
      modifies this
      ensures Follows(outcome, old(Model()), Model(), BetLedger.PlaceBets(old(Model()), user, rs, maxFee, key))
      ensures outcome.Ok? ==> outcome.value == NewBets(user, rs, old(now))
    {
      var saved := Model();
      var admitted := AdmitBatch(user, rs, maxFee, key);
      if admitted.Fail? {
        return Err(admitted.error);
      }
      var validated := ValidateAll(user, rs);
      if validated.Err? {
        return Err(validated.error);
      }
      var (markets, total) := validated.value;
      var locked := LockFunds(user, total);
      if locked.Err? {
        return Err(locked.error);
      }
      ValidateBatchLength(saved, user, rs);
      var stored := StoreAll(user, rs, markets);
      if stored.Err? {
        Rollback(saved);
        return Err(stored.error);
      }
      consumed := consumed + {(user, key)};
      return Ok(stored.value);
    }

    /** The guards of a batch, in the order the call applies them. */
    method AdmitBatch(user: User, rs: seq<BetRequest>, maxFee: int, key: IdemKey) returns (admitted: Check)
      ensures admitted == CheckBatch(Model(), user, rs, maxFee, key)
    {
      if !Admits(gate, Betting) {
        return Fail(CBOpen);
      }
      if (user, key) in consumed {
        return Fail(IdempotentBatchAlreadyApplied);
      }
      if maxFee > 0 && LiveFee(fees) > maxFee {
        return Fail(FeeExceedsMax);
      }
      if |rs| == 0 || |rs| > MAX_BATCH_SIZE {
        return Fail(InvalidInput);
      }
      if SlippageFee(fees) > maxFee {
        return Fail(FeeExceedsMax);
      }
      return Pass;
    }

    /** First pass of a batch. */
    method ValidateAll(user: User, rs: seq<BetRequest>) returns (outcome: Result<(seq<Market>, int)>)
      ensures outcome == ValidateBatch(Model(), user, rs)
    {
      var markets: seq<Market>, total := [], 0;
      var i := 0;
      while i < |rs|
        invariant 0 <= i <= |rs|
        invariant ValidateBatch(Model(), user, rs[..i]) == Ok((markets, total))
      {
        assert rs[..i + 1][..i] == rs[..i];
        var checked := CheckRequest(Model(), rs[i]);
        if checked.Err? {
          ValidateBatchFails(Model(), user, rs, i + 1);
          return Err(checked.error);
        }
        var b := BookAt(books, rs[i].market);
        if user in b.bets && b.bets[user].status != Cancelled {
          ValidateBatchFails(Model(), user, rs, i + 1);
          return Err(AlreadyBet);
        }
        if !InI128(total + rs[i].amount) {
          ValidateBatchFails(Model(), user, rs, i + 1);
          return Err(InvalidInput);
        }
        total := total + rs[i].amount;
        markets := markets + [checked.value];
        i := i + 1;
      }
      assert rs[..i] == rs;
      return Ok((markets, total));
    }

    /** Third pass of a batch, over the market records read in the first. */
    method StoreAll(user: User, rs: seq<BetRequest>, markets: seq<Market>) returns (outcome: Result<seq<Bet>>)
      requires |markets| == |rs|
      modifies this`books
      ensures var spec := StoreBatch(old(books), user, rs, markets, now);
              if spec.Ok? then outcome.Ok? && books == spec.value else outcome == Err(spec.error)
      ensures outcome.Ok? ==> outcome.value == NewBets(user, rs, now)
    {
      var placed: seq<Bet> := [];
      var i := 0;
      while i < |rs|
        invariant 0 <= i <= |rs|
        invariant StoreBatch(old(books), user, rs[..i], markets[..i], now) == Ok(books)
        invariant placed == NewBets(user, rs[..i], now)
      {
        StoreBatchNext(old(books), user, rs, markets, now, i);
        var bet := Bet(user, rs[i].outcome, rs[i].amount, now, Active);
        var entered := EnterBet(rs[i].market, markets[i], bet, InvalidInput);
        if entered.Err? {
          StoreBatchFails(old(books), user, rs, markets, now, i + 1);
          return Err(entered.error);
        }
        placed := placed + [bet];
        i := i + 1;
      }
      assert rs[..i] == rs && markets[..i] == markets;
      return Ok(placed);
    }

    method CancelBet(user: User, m: MarketId) returns (outcome: Result<()>)
      requires Valid()
      modifies this
      ensures Follows(outcome, old(Model()), Model(), CancelBetCall(old(Model()), user, m))
      ensures Valid() && (outcome.Ok? ==> Balanced(old(Model()), Model()))
    {
      if !Admits(gate, Operation.CancelBet) {
        return Err(CBOpen);
      }
      var b := BookAt(books, m);
      if user !in b.bets {
        return Err(NothingToClaim);
      }
      var bet := b.bets[user];
      if bet.status != Active {
        return Err(InvalidState);
      }
      if b.market.None? {
        return Err(MarketNotFound);
      }
      var market := b.market.value;
      if now >= market.endTime {
        return Err(MarketClosed);
      }
      var paid := UnlockFunds(user, bet.amount);
      if paid.Err? {
        return Err(paid.error);
      }
      LeaveBet(m, market, bet);
      StepRecords(old(Model()), DoCancel(user, m));
      return Ok(());
    }

    /** Marks a bet cancelled and takes it out of statistics and market record. */
    method LeaveBet(m: MarketId, mk: Market, bet: Bet)
      modifies this`books
      ensures books == old(books)[m := CancelInBook(BookAt(old(books), m), mk, bet)]
    {
      var market := mk;
      StoreBet(m, bet.(status := Cancelled));
      UpdateMarketBetStatsOnCancel(m, bet.outcome, bet.amount);
      market := market.(totalStaked := SatSubI128(market.totalStaked, bet.amount));
      market := market.(votes := market.votes - {bet.user});
      market := market.(stakes := market.stakes - {bet.user});
      UpdateMarket(m, market);
    }

    method ResolveMarketBets(m: MarketId, winningOutcomes: seq<Outcome>)
      requires Valid()
      modifies this`books
      ensures Model() == ResolveBets(old(Model()), m, winningOutcomes)
      ensures Valid() && Balanced(old(Model()), Model())
    {
      ResolveAllBettors(m, BookAt(books, m).registry, winningOutcomes);
      StepRecords(old(Model()), DoResolve(m, winningOutcomes));
    }

    /** The resolution loop over a list of bettors. */
    method ResolveAllBettors(m: MarketId, bettors: seq<User>, winningOutcomes: seq<Outcome>)
      requires bettors == [] || m in books
      modifies this`books
      ensures books == if bettors == [] then old(books)
                       else old(books)[m := ResolveEach(BookAt(old(books), m), bettors, winningOutcomes)]
    {
      var i := 0;
      while i < |bettors|
        invariant 0 <= i <= |bettors|
        invariant bettors == [] ==> books == old(books)
        invariant bettors != [] ==>
                    books == old(books)[m := ResolveEach(BookAt(old(books), m), bettors[..i], winningOutcomes)]
      {
        assert bettors[..i + 1][..i] == bettors[..i];
        SettleBettor(m, bettors[i], winningOutcomes);
        i := i + 1;
      }
      assert bettors[..i] == bettors;
    }

    method SettleBettor(m: MarketId, u: User, winningOutcomes: seq<Outcome>)
      requires m in books
      modifies this`books
      ensures books == old(books)[m := ResolveOne(old(books)[m], u, winningOutcomes)]
    {
      var b := books[m];
      if u in b.bets {
        var bet := b.bets[u];
        if bet.outcome in winningOutcomes {
          bet := bet.(status := Won);
        } else {
          bet := bet.(status := Lost);
        }
        StoreBet(m, bet);
      }
    }

    /** One bettor of a refund: pays out an Active bet and takes it off the market record in hand. */
    method RefundBettor(m: MarketId, u: User, mk: Market) returns (outcome: Result<Market>)
      modifies this`books, this`wallets, this`vault
      ensures var spec := RefundOne(WithMarket(old(Model()), m, mk), m, u);
              if spec.Ok? then outcome.Ok? && WithMarket(Model(), m, outcome.value) == spec.value
              else outcome == Err(spec.error)
    {
      var market := mk;
      var b := BookAt(books, m);
      if u in b.bets && b.bets[u].status == Active {
        var bet := b.bets[u];
        var paid := UnlockFunds(bet.user, bet.amount);
        if paid.Err? {
          return Err(paid.error);
        }
        StoreBet(m, bet.(status := Refunded));
        market := market.(totalStaked := SatSubI128(market.totalStaked, bet.amount));
        market := market.(votes := market.votes - {bet.user});
        market := market.(stakes := market.stakes - {bet.user});
      }
      return Ok(market);
    }

    /** The refund loop over the registered bettors, on a working copy of the market record. */
    method RefundAll(m: MarketId, bettors: seq<User>, mk: Market) returns (outcome: Result<Market>)
      requires WithMarket(Model(), m, mk) == Model()
      modifies this`books, this`wallets, this`vault
      ensures var spec := RefundEach(old(Model()), m, bettors);
              if spec.Ok? then outcome.Ok? && WithMarket(Model(), m, outcome.value) == spec.value
              else outcome == Err(spec.error)
    {
      ghost var saved := Model();
      var market := mk;
      var i := 0;
      while i < |bettors|
        invariant 0 <= i <= |bettors|
        invariant RefundEach(saved, m, bettors[..i]) == Ok(WithMarket(Model(), m, market))
      {
        assert bettors[..i + 1][..i] == bettors[..i];
        var refunded := RefundBettor(m, bettors[i], market);
        if refunded.Err? {
          RefundEachFails(saved, m, bettors, i + 1);
          return Err(refunded.error);
        }
        market := refunded.value;
        i := i + 1;
      }
      assert bettors[..i] == bettors;
      return Ok(market);
    }

    method RefundMarketBets(m: MarketId) returns (outcome: Result<()>)
      requires Valid()
      modifies this
      ensures Follows(outcome, old(Model()), Model(), RefundBets(old(Model()), m))
      ensures Valid() && (outcome.Ok? ==> Balanced(old(Model()), Model()))
    {
      var saved := Model();
      if BookAt(books, m).market.None? {
        return Err(MarketNotFound);
      }
      assert WithMarket(saved, m, BookAt(books, m).market.value) == saved;
      var refunded := RefundAll(m, BookAt(books, m).registry, BookAt(books, m).market.value);
      if refunded.Err? {
        Rollback(saved);
        return Err(refunded.error);
      }
      UpdateMarket(m, refunded.value);
      StepRecords(saved, DoRefund(m));
      return Ok(());
    }

    // ----- internal balances -----

    method Deposit(user: User, asset: Asset, amount: int) returns (outcome: Result<int>)
      requires Valid()
      modifies this
      ensures Follows(outcome, old(Model()), Model(), BetLedger.Deposit(old(Model()), user, asset, amount))
      ensures outcome.Ok? ==> outcome.value == GetOr(balances, user, 0) == GetOr(old(balances), user, 0) + amount
      ensures outcome.Ok? ==> GetOr(wallets, user, 0) == GetOr(old(wallets), user, 0) - amount
      ensures outcome.Ok? ==> vault == old(vault) + amount
      ensures Valid() && (outcome.Ok? ==> Balanced(old(Model()), Model()))
    {
      var saved := Model();
      if !Admits(gate, DepositOp) {
        return Err(CBOpen);
      }
      if amount <= 0 || amount > I128_MAX / 2 {
        return Err(InvalidInput);
      }
      if asset != Stellar {
        return Err(InvalidInput);
      }
      var paid := LockFunds(user, amount);
      if paid.Err? {
        return Err(paid.error);
      }
      var balance := GetOr(balances, user, 0);
      if !InI128(balance + amount) {
        Rollback(saved);
        return Err(InvalidInput);
      }
      balances := balances[user := balance + amount];
      StepRecords(old(Model()), DoDeposit(user, asset, amount));
      return Ok(balance + amount);
    }

    method Withdraw(user: User, asset: Asset, amount: int) returns (outcome: Result<int>)
      requires Valid()
      modifies this
      ensures Follows(outcome, old(Model()), Model(), BetLedger.Withdraw(old(Model()), user, asset, amount))
      ensures outcome.Ok? ==> outcome.value == GetOr(balances, user, 0) == GetOr(old(balances), user, 0) - amount
      ensures outcome.Ok? ==> GetOr(wallets, user, 0) == GetOr(old(wallets), user, 0) + amount
      ensures outcome.Ok? ==> vault == old(vault) - amount
      ensures Valid() && (outcome.Ok? ==> Balanced(old(Model()), Model()))
    {
      if !Admits(gate, WithdrawOp) {
        return Err(CBOpen);
      }
      if amount <= 0 {
        return Err(InvalidInput);
      }
      if !WithdrawalsAllowed(gate) {
        return Err(CBOpen);
      }
      if asset != Stellar {
        return Err(InvalidInput);
      }
      var balance := GetOr(balances, user, 0);
      if amount > balance {
        return Err(InsufficientBalance);
      }
      var paid := UnlockFunds(user, amount);
      if paid.Err? {
        return Err(paid.error);
      }
      balances := balances[user := balance - amount];
      StepRecords(old(Model()), DoWithdraw(user, asset, amount));
      return Ok(balance - amount);
    }

    // ----- limits -----

    method SetGlobalBetLimits(limits: Limits) returns (outcome: Result<()>)
      requires Valid()
      modifies this`globalLimits
      ensures Follows(outcome, old(Model()), Model(), SetGlobalLimits(old(Model()), limits))
      ensures outcome.Ok? <==> MIN_BET_AMOUNT <= limits.minBet <= limits.maxBet <= MAX_BET_AMOUNT
      ensures forall m :: EffectiveLimits(Model(), m) ==
                if outcome.Ok? && m !in eventLimits then limits else EffectiveLimits(old(Model()), m)
      ensures Valid() && (outcome.Ok? ==> Balanced(old(Model()), Model()))
    {
      var checked := CheckLimits(limits);
      if checked.Fail? {
        return Err(checked.error);
      }
      globalLimits := Some(limits);
      StepRecords(old(Model()), DoSetGlobalLimits(limits));
      return Ok(());
    }

    method SetEventBetLimits(m: MarketId, limits: Limits) returns (outcome: Result<()>)
      requires Valid()
      modifies this`eventLimits
      ensures Follows(outcome, old(Model()), Model(), SetEventLimits(old(Model()), m, limits))
      ensures outcome.Ok? <==> MIN_BET_AMOUNT <= limits.minBet <= limits.maxBet <= MAX_BET_AMOUNT
      ensures forall x :: EffectiveLimits(Model(), x) ==
                if outcome.Ok? && x == m then limits else EffectiveLimits(old(Model()), x)
      ensures Valid() && (outcome.Ok? ==> Balanced(old(Model()), Model()))
    {
      var checked := CheckLimits(limits);
      if checked.Fail? {
        return Err(checked.error);
      }
      eventLimits := eventLimits[m := limits];
      StepRecords(old(Model()), DoSetEventLimits(m, limits));
      return Ok(());
    }
  }
}
