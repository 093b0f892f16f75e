/** The betting ledger as a value: what is stored, and what each call of `BetManager` and
    `BalanceManager` turns one stored state into. A call that returns an error leaves no trace,
    because the host rolls back every write of a failed call.

    Addresses, market symbols and idempotency keys are only ever compared for equality, so they
    are natural numbers here; token amounts are unbounded integers with the machine limits of the
    source written out where an operation can meet them. */
module BetLedger {
  import opened Common
  import BreakerState

  type User = nat
  type MarketId = nat
  type Outcome = nat
  type IdemKey = nat

  const MIN_BET_AMOUNT: int := 1_000_000
  const MAX_BET_AMOUNT: int := 100_000_000_000
  const MAX_BATCH_SIZE: nat := 50
  const DEFAULT_PLATFORM_FEE: int := 200

  datatype BetStatus = Active | Won | Lost | Refunded | Cancelled

  datatype Bet = Bet(user: User, outcome: Outcome, amount: int, timestamp: nat, status: BetStatus)

  datatype BetStats = BetStats(
    totalBets: nat, totalLocked: int, uniqueBettors: nat, outcomeTotals: map<Outcome, int>)

  datatype MarketState = MarketActive | Ended | Disputed | Resolved | MarketIsClosed | MarketCancelled

  datatype Market = Market(
    outcomes: seq<Outcome>, endTime: nat, betDeadline: nat, minPoolSize: Option<int>,
    state: MarketState, winning: Option<seq<Outcome>>,
    votes: map<User, Outcome>, stakes: map<User, int>, totalStaked: int)

  /** Everything stored under one market symbol: the bets (key market and user), the bettor
      registry, the running statistics and the market record itself. */
  datatype Book = Book(
    bets: map<User, Bet>, registry: seq<User>, stats: BetStats, market: Option<Market>)

  datatype Limits = Limits(minBet: int, maxBet: int)

  datatype FeeSetting = FeeSetting(enabled: bool, percentage: int)

  /** What the two fee lookups read: the contract configuration when there is one, else the fee
      configuration (whose lookup always finds one) or a legacy key. */
  datatype FeeSources = FeeSources(config: Option<FeeSetting>, feeConfig: FeeSetting, legacyPlatFee: Option<int>)

  datatype Operation = Betting | CancelBet | DepositOp | WithdrawOp

  /** What the circuit breaker answers to one call. `Probing` is HalfOpen, where admission is
      decided by the breaker's own quota. */
  datatype Gate = Closed | Paused(scope: BreakerState.PauseScope, allowWithdrawals: bool) | Probing(admits: bool)

  datatype Asset = Stellar | OtherAsset

  datatype Ledger = Ledger(
    books: map<MarketId, Book>,
    wallets: map<User, int>,    // token balances outside the contract
    vault: int,                 // the contract's own token balance
    balances: map<User, int>,   // internal balances from deposits
    consumed: set<(User, IdemKey)>,
    globalLimits: Option<Limits>, eventLimits: map<MarketId, Limits>,
    fees: FeeSources, gate: Gate, now: nat)

  datatype BetRequest = BetRequest(market: MarketId, outcome: Outcome, amount: int)

  const NO_STATS := BetStats(0, 0, 0, map[])
  const NO_BOOK := Book(map[], [], NO_STATS, None)

  function BookAt(books: map<MarketId, Book>, m: MarketId): Book {
    GetOr(books, m, NO_BOOK)
  }

  predicate InI128(x: int) {
    I128_MIN <= x <= I128_MAX
  }

  // ----- circuit breaker gate, limits, fees -----

  predicate Admits(gate: Gate, op: Operation) {
    match gate
    case Closed => true
    case Paused(scope, _) => scope == BreakerState.BettingOnly && op != Betting
    case Probing(admits) => admits
  }

  predicate WithdrawalsAllowed(gate: Gate) {
    gate.Paused? ==> gate.allowWithdrawals
  }

  function EffectiveLimits(s: Ledger, m: MarketId): Limits {
    if m in s.eventLimits then s.eventLimits[m]
    else if s.globalLimits.Some? then s.globalLimits.value
    else Limits(MIN_BET_AMOUNT, MAX_BET_AMOUNT)
  }

  function CheckLimits(l: Limits): Check {
    if l.minBet > l.maxBet then Fail(InvalidInput)
    else if l.minBet < MIN_BET_AMOUNT then Fail(InsufficientStake)
    else if l.maxBet > MAX_BET_AMOUNT then Fail(InvalidInput)
    else Pass
  }

  function SetGlobalLimits(s: Ledger, l: Limits): Result<Ledger> {
    match CheckLimits(l)
    case Fail(e) => Err(e)
    case Pass => Ok(s.(globalLimits := Some(l)))
  }

  function SetEventLimits(s: Ledger, m: MarketId, l: Limits): Result<Ledger> {
    match CheckLimits(l)
    case Fail(e) => Err(e)
    case Pass => Ok(s.(eventLimits := s.eventLimits[m := l]))
  }

  /** The fee the first slippage check compares with. */
  function LiveFee(f: FeeSources): int {
    var setting := if f.config.Some? then f.config.value else f.feeConfig;
    if setting.enabled then setting.percentage else 0
  }

  /** The fee the second slippage check compares with: it ignores the `enabled` switch and the
      fee-specific configuration, and reads another legacy key. */
  function SlippageFee(f: FeeSources): int {
    if f.config.Some? then f.config.value.percentage
    else if f.legacyPlatFee.Some? then f.legacyPlatFee.value
    else DEFAULT_PLATFORM_FEE
  }

  function CheckLiveFee(f: FeeSources, maxFee: int): Check {
    Need(!(maxFee > 0 && LiveFee(f) > maxFee), FeeExceedsMax)
  }

  function CheckSlippage(f: FeeSources, maxFee: int): Check {
    Need(SlippageFee(f) <= maxFee, FeeExceedsMax)
  }

  // ----- validation -----

  function EffectiveDeadline(mk: Market): Result<nat> {
    if mk.betDeadline == 0 then Ok(mk.endTime)
    else if mk.betDeadline > mk.endTime then Err(InvalidState)
    else Ok(mk.betDeadline)
  }

  function CheckMarketOpen(mk: Market, now: nat): Result<()> {
    if mk.state != MarketActive then Err(MarketClosed) else
    :- Need(mk.minPoolSize.Some? ==> mk.minPoolSize.value >= 0, InvalidState);
    var deadline :- EffectiveDeadline(mk);
    :- Need(now < deadline, MarketClosed);
    :- Need(mk.winning.None?, MarketResolved);
    Ok(())
  }

  function CheckAmount(l: Limits, amount: int): Check {
    if amount < l.minBet then Fail(InsufficientStake)
    else if amount > l.maxBet then Fail(InvalidInput)
    else Pass
  }

  /** Market lookup, market validation and bet-parameter validation, in that order. */
  function CheckRequest(s: Ledger, r: BetRequest): Result<Market> {
    var b := BookAt(s.books, r.market);
    :- Need(b.market.Some?, MarketNotFound);
    var mk := b.market.value;
    var _ :- CheckMarketOpen(mk, s.now);
    :- Need(r.outcome in mk.outcomes, InvalidOutcome);
    :- CheckAmount(EffectiveLimits(s, r.market), r.amount);
    Ok(mk)
  }

  function CheckNotBet(b: Book, user: User): Check {
    Need(user in b.bets ==> b.bets[user].status == Cancelled, AlreadyBet)
  }

  // ----- token moves -----

  function LockFunds(s: Ledger, user: User, amount: int): Result<Ledger> {
    if !(0 <= amount <= GetOr(s.wallets, user, 0)) then Err(Trap) else
    Ok(s.(wallets := s.wallets[user := GetOr(s.wallets, user, 0) - amount], vault := s.vault + amount))
  }

  function UnlockFunds(s: Ledger, user: User, amount: int): Result<Ledger> {
    if !(0 <= amount <= s.vault) then Err(Trap) else
    Ok(s.(wallets := s.wallets[user := GetOr(s.wallets, user, 0) + amount], vault := s.vault - amount))
  }

  // ----- writes to one book -----

  function AddToRegistry(registry: seq<User>, user: User): seq<User> {
    if user in registry then registry else registry + [user]
  }

  function StoreBet(b: Book, bet: Bet): Book {
    b.(bets := b.bets[bet.user := bet], registry := AddToRegistry(b.registry, bet.user))
  }

  function AddToStats(st: BetStats, outcome: Outcome, amount: int): Result<BetStats> {
    var onOutcome := GetOr(st.outcomeTotals, outcome, 0) + amount;
    :- Need(st.totalBets + 1 <= U32_MAX && st.uniqueBettors + 1 <= U32_MAX, Trap);
    :- Need(InI128(st.totalLocked + amount) && InI128(onOutcome), Trap);
    Ok(BetStats(st.totalBets + 1, st.totalLocked + amount, st.uniqueBettors + 1,
                st.outcomeTotals[outcome := onOutcome]))
  }

  function RemoveFromStats(st: BetStats, outcome: Outcome, amount: int): BetStats {
    var left := SatSubI128(GetOr(st.outcomeTotals, outcome, 0), amount);
    BetStats(SatSubU32(st.totalBets, 1), SatSubI128(st.totalLocked, amount), SatSubU32(st.uniqueBettors, 1),
             if left > 0 then st.outcomeTotals[outcome := left] else st.outcomeTotals - {outcome})
  }

  function EnterMarket(mk: Market, bet: Bet): Market {
    mk.(totalStaked := mk.totalStaked + bet.amount,
        votes := mk.votes[bet.user := bet.outcome], stakes := mk.stakes[bet.user := bet.amount])
  }

  function LeaveMarket(mk: Market, user: User, amount: int): Market {
    mk.(totalStaked := SatSubI128(mk.totalStaked, amount),
        votes := mk.votes - {user}, stakes := mk.stakes - {user})
  }

  /** Records a new bet. `mk` is the market record the caller read, which is written back changed;
      `overflow` is what the caller reports when the pool total overflows. */
  function PlaceInBook(b: Book, mk: Market, bet: Bet, overflow: Error): Result<Book> {
    var stats :- AddToStats(b.stats, bet.outcome, bet.amount);
    :- Need(InI128(mk.totalStaked + bet.amount), overflow);
    Ok(StoreBet(b, bet).(stats := stats, market := Some(EnterMarket(mk, bet))))
  }

  function CancelInBook(b: Book, mk: Market, bet: Bet): Book {
    StoreBet(b, bet.(status := Cancelled))
      .(stats := RemoveFromStats(b.stats, bet.outcome, bet.amount),
        market := Some(LeaveMarket(mk, bet.user, bet.amount)))
  }

  // ----- the calls -----

  function PlaceBet(s: Ledger, user: User, r: BetRequest, maxFee: int): Result<Ledger> {
    if !Admits(s.gate, Betting) then Err(CBOpen) else
    :- CheckLiveFee(s.fees, maxFee);
    var mk :- CheckRequest(s, r);
    :- CheckSlippage(s.fees, maxFee);
    var b := BookAt(s.books, r.market);
    :- CheckNotBet(b, user);
    var locked :- LockFunds(s, user, r.amount);
    var placed :- PlaceInBook(b, mk, Bet(user, r.outcome, r.amount, s.now, Active), Trap);
    Ok(locked.(books := s.books[r.market := placed]))
  }

  /** First pass of a batch over its first `n` entries: the market records read and the total amount. */
  function ValidateBatch(s: Ledger, user: User, rs: seq<BetRequest>): Result<(seq<Market>, int)> {
    if rs == [] then Ok(([], 0)) else
    var k := |rs| - 1;
    var (mks, total) :- ValidateBatch(s, user, rs[..k]);
    var mk :- CheckRequest(s, rs[k]);
    :- CheckNotBet(BookAt(s.books, rs[k].market), user);
    :- Need(InI128(total + rs[k].amount), InvalidInput);
    Ok((mks + [mk], total + rs[k].amount))
  }

  /** Third pass of a batch: each bet is entered with the market record read in the first pass. */
  function StoreBatch(books: map<MarketId, Book>, user: User, rs: seq<BetRequest>, mks: seq<Market>, now: nat)
    : Result<map<MarketId, Book>>
    requires |mks| == |rs|
  {
    if rs == [] then Ok(books) else
    var k := |rs| - 1;
    var before :- StoreBatch(books, user, rs[..k], mks[..k], now);
    var r := rs[k];
    var bet := Bet(user, r.outcome, r.amount, now, Active);
    var placed :- PlaceInBook(BookAt(before, r.market), mks[k], bet, InvalidInput);
    Ok(before[r.market := placed])
  }

  lemma ValidateBatchLength(s: Ledger, user: User, rs: seq<BetRequest>)
    ensures var v := ValidateBatch(s, user, rs); v.Ok? ==> |v.value.0| == |rs|
  {
  }

  /** What a batch must pass before its entries are looked at. */
  function CheckBatch(s: Ledger, user: User, rs: seq<BetRequest>, maxFee: int, key: IdemKey): Check {
    if !Admits(s.gate, Betting) then Fail(CBOpen)
    else if (user, key) in s.consumed then Fail(IdempotentBatchAlreadyApplied)
    else if CheckLiveFee(s.fees, maxFee).Fail? then CheckLiveFee(s.fees, maxFee)
    else if rs == [] || |rs| > MAX_BATCH_SIZE then Fail(InvalidInput)
    else CheckSlippage(s.fees, maxFee)
  }

  /** The bets a batch creates, in order. */
  function NewBets(user: User, rs: seq<BetRequest>, now: nat): seq<Bet> {
    seq(|rs|, i requires 0 <= i < |rs| => Bet(user, rs[i].outcome, rs[i].amount, now, Active))
  }

  function PlaceBets(s: Ledger, user: User, rs: seq<BetRequest>, maxFee: int, key: IdemKey): Result<Ledger> {
    var admitted := CheckBatch(s, user, rs, maxFee, key);
    :- admitted;
    var (mks, total) :- ValidateBatch(s, user, rs);
    var locked :- LockFunds(s, user, total);
    ValidateBatchLength(s, user, rs);
    var books :- StoreBatch(s.books, user, rs, mks, s.now);
    Ok(locked.(books := books, consumed := s.consumed + {(user, key)}))
  }

  function CancelBetCall(s: Ledger, user: User, m: MarketId): Result<Ledger> {
    if !Admits(s.gate, CancelBet) then Err(CBOpen) else
    var b := BookAt(s.books, m);
    :- Need(user in b.bets, NothingToClaim);
    var bet := b.bets[user];
    :- Need(bet.status == Active, InvalidState);
    :- Need(b.market.Some?, MarketNotFound);
    var mk := b.market.value;
    :- Need(s.now < mk.endTime, MarketClosed);
    var paid :- UnlockFunds(s, user, bet.amount);
    Ok(paid.(books := s.books[m := CancelInBook(b, mk, bet)]))
  }

  function ResolveOne(b: Book, u: User, ws: seq<Outcome>): Book {
    if u !in b.bets then b
    else var bet := b.bets[u]; StoreBet(b, bet.(status := if bet.outcome in ws then Won else Lost))
  }

  /** Visits the listed users in order, whatever the status of their bets. */
  function ResolveEach(b: Book, us: seq<User>, ws: seq<Outcome>): Book {
    if us == [] then b
    else ResolveOne(ResolveEach(b, us[..|us| - 1], ws), us[|us| - 1], ws)
  }

  function ResolveBook(b: Book, ws: seq<Outcome>): Book {
    ResolveEach(b, b.registry, ws)
  }

  function ResolveBets(s: Ledger, m: MarketId, ws: seq<Outcome>): Ledger {
    if BookAt(s.books, m).registry == [] then s
    else s.(books := s.books[m := ResolveBook(BookAt(s.books, m), ws)])
  }

  function RefundInBook(b: Book, mk: Market, bet: Bet): Book {
    StoreBet(b, bet.(status := Refunded)).(market := Some(LeaveMarket(mk, bet.user, bet.amount)))
  }

  function RefundOne(s: Ledger, m: MarketId, u: User): Result<Ledger> {
    var b := BookAt(s.books, m);
    if u !in b.bets || b.bets[u].status != Active || b.market.None? then Ok(s)
    else
      var bet := b.bets[u];
      var paid :- UnlockFunds(s, bet.user, bet.amount);
      Ok(paid.(books := s.books[m := RefundInBook(b, b.market.value, bet)]))
  }

  function RefundEach(s: Ledger, m: MarketId, us: seq<User>): Result<Ledger> {
    if us == [] then Ok(s) else
    var before :- RefundEach(s, m, us[..|us| - 1]);
    RefundOne(before, m, us[|us| - 1])
  }

  function RefundBets(s: Ledger, m: MarketId): Result<Ledger> {
    if BookAt(s.books, m).market.None? then Err(MarketNotFound) else
    RefundEach(s, m, BookAt(s.books, m).registry)
  }

  function Deposit(s: Ledger, user: User, asset: Asset, amount: int): Result<Ledger> {
    if !Admits(s.gate, DepositOp) then Err(CBOpen) else
    :- Need(0 < amount <= I128_MAX / 2, InvalidInput);
    :- Need(asset == Stellar, InvalidInput);
    var paid :- LockFunds(s, user, amount);
    :- Need(InI128(GetOr(s.balances, user, 0) + amount), InvalidInput);
    Ok(paid.(balances := s.balances[user := GetOr(s.balances, user, 0) + amount]))
  }

  function Withdraw(s: Ledger, user: User, asset: Asset, amount: int): Result<Ledger> {
    if !Admits(s.gate, WithdrawOp) then Err(CBOpen) else
    :- Need(amount > 0, InvalidInput);
    :- Need(WithdrawalsAllowed(s.gate), CBOpen);
    :- Need(asset == Stellar, InvalidInput);
    :- Need(amount <= GetOr(s.balances, user, 0), InsufficientBalance);
    var paid :- UnlockFunds(s, user, amount);
    Ok(paid.(balances := s.balances[user := GetOr(s.balances, user, 0) - amount]))
  }
}
