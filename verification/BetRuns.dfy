/** Whole runs of the ledger: every sequence of calls, with failed calls rolled back and the rest of
    the contract (clock, market creation, declared outcomes, fees, limits, breaker) moving in between.
    Where the money is holds over all of them; that the statistics and the market records agree with the
    bets holds market by market, as long as the two calls that can break it are used soundly there. */
module BetRuns {
  import opened Common
  import opened BetLedger
  import opened BetInvariant
  import opened BetResolution
  import opened BetRecord
  import opened BetBatch
  import opened BetBatchRecord

  datatype Step =
    | DoDeposit(user: User, asset: Asset, amount: int)
    | DoWithdraw(user: User, asset: Asset, amount: int)
    | DoPlace(user: User, request: BetRequest, maxFee: int)
    | DoPlaceBatch(user: User, requests: seq<BetRequest>, maxFee: int, key: IdemKey)
    | DoCancel(user: User, market: MarketId)
    | DoRefund(market: MarketId)
    | DoResolve(market: MarketId, outcomes: seq<Outcome>)
    | DoSetGlobalLimits(limits: Limits)
    | DoSetEventLimits(market: MarketId, limits: Limits)
    // the surroundings
    | OpenMarket(market: MarketId, outcomes: seq<Outcome>, endTime: nat, betDeadline: nat, minPoolSize: Option<int>)
    | Declare(market: MarketId, state: MarketState, winning: Option<seq<Outcome>>)
    | Tick(time: nat)
    | SetGate(gate: Gate)
    | SetFees(fees: FeeSources)

  function NewMarket(outcomes: seq<Outcome>, endTime: nat, betDeadline: nat, minPoolSize: Option<int>): Market {
    Market(outcomes, endTime, betDeadline, minPoolSize, MarketActive, None, map[], map[], 0)
  }

  function Call(s: Ledger, step: Step): Result<Ledger> {
    match step
    case DoDeposit(u, asset, a) => Deposit(s, u, asset, a)
    case DoWithdraw(u, asset, a) => Withdraw(s, u, asset, a)
    case DoPlace(u, r, maxFee) => PlaceBet(s, u, r, maxFee)
    case DoPlaceBatch(u, rs, maxFee, key) => PlaceBets(s, u, rs, maxFee, key)
    case DoCancel(u, m) => CancelBetCall(s, u, m)
    case DoRefund(m) => RefundBets(s, m)
    case DoResolve(m, ws) => Ok(ResolveBets(s, m, ws))
    case DoSetGlobalLimits(l) => SetGlobalLimits(s, l)
    case DoSetEventLimits(m, l) => SetEventLimits(s, m, l)
    case OpenMarket(m, os, e, d, p) =>
      :- Need(BookAt(s.books, m).market.None?, InvalidState);
      Ok(s.(books := s.books[m := BookAt(s.books, m).(market := Some(NewMarket(os, e, d, p)))]))
    case Declare(m, st, w) =>
      :- Need(BookAt(s.books, m).market.Some?, MarketNotFound);
      var mk := BookAt(s.books, m).market.value;
      Ok(s.(books := s.books[m := BookAt(s.books, m).(market := Some(mk.(state := st, winning := w)))]))
    case Tick(t) => Ok(if t >= s.now then s.(now := t) else s)
    case SetGate(g) => Ok(s.(gate := g))
    case SetFees(f) => Ok(s.(fees := f))
  }

  /** The state after a call; a failed call leaves the state as it was. */
  function After(s: Ledger, step: Step): Ledger {
    var r := Call(s, step);
    if r.Ok? then r.value else s
  }

  function Run(s: Ledger, steps: seq<Step>): Ledger {
    if steps == [] then s else After(Run(s, steps[..|steps| - 1]), steps[|steps| - 1])
  }

  // ----- sums over all markets -----

  /** Two things the market records say: a market's pool, or one user's stake in it. */
  datatype Measure = WholePool | StakeOf(u: User)

  function Measured(q: Measure, b: Book): int {
    match q
    case WholePool => Pool(b)
    case StakeOf(u) => StakeIn(b, u)
  }

  predicate Concerns(q: Measure, u: User) {
    q == WholePool || q == StakeOf(u)
  }

  function SumMarkets(q: Measure, books: map<MarketId, Book>, ms: seq<MarketId>): int {
    if ms == [] then 0
    else SumMarkets(q, books, ms[..|ms| - 1]) + Measured(q, BookAt(books, ms[|ms| - 1]))
  }

  lemma SumMarketsUpdate(q: Measure, books: map<MarketId, Book>, ms: seq<MarketId>, m: MarketId, b: Book)
    requires NoDup(ms)
    ensures SumMarkets(q, books[m := b], ms) ==
            SumMarkets(q, books, ms) + (if m in ms then Measured(q, b) - Measured(q, BookAt(books, m)) else 0)
  {
    if ms == [] {
    } else {
      SumMarketsUpdate(q, books, ms[..|ms| - 1], m, b);
    }
  }

  /** A list of every market and a list of every internal account of a state. */
  ghost predicate Roster(s: Ledger, ms: seq<MarketId>, us: seq<User>) {
    && NoDup(ms) && (forall m | m in s.books :: m in ms)
    && NoDup(us) && (forall u | u in s.balances :: u in us)
  }

  /** What the contract holds beyond what it owes: its tokens less the internal balances and the pools. */
  function Float(s: Ledger, ms: seq<MarketId>, us: seq<User>): int {
    s.vault - SumUsers(s.balances, us) - SumMarkets(WholePool, s.books, ms)
  }

  /** Everything one user owns: wallet, internal balance and recorded stakes in all markets. */
  function Wealth(s: Ledger, u: User, ms: seq<MarketId>): int {
    GetOr(s.wallets, u, 0) + GetOr(s.balances, u, 0) + SumMarkets(StakeOf(u), s.books, ms)
  }

  /** Money stays where it is, except that `loser` leaves `lost` tokens behind in the vault. */
  ghost predicate Conserved(s: Ledger, s': Ledger, ms: seq<MarketId>, us: seq<User>, loser: User, lost: int) {
    && Float(s', ms, us) == Float(s, ms, us) + lost
    && forall u :: Wealth(s', u, ms) == Wealth(s, u, ms) - (if u == loser then lost else 0)
  }

  /** The accounts of a state and those of a later one, for every roster of the later one. */
  ghost predicate Accounted(s: Ledger, s': Ledger, loser: User, lost: int) {
    && (forall m | m in s.books :: m in s'.books)
    && (forall u | u in s.balances :: u in s'.balances)
    && (forall ms: seq<MarketId>, us: seq<User> :: Roster(s', ms, us) ==> Conserved(s, s', ms, us, loser, lost))
  }

  ghost predicate Balanced(s: Ledger, s': Ledger) {
    Accounted(s, s', 0, 0)
  }

  lemma BalancedTrans(s: Ledger, t: Ledger, r: Ledger)
    requires Balanced(s, t) && Balanced(t, r)
    ensures Balanced(s, r)
  {
    forall ms: seq<MarketId>, us: seq<User> | Roster(r, ms, us) ensures Conserved(s, r, ms, us, 0, 0) {
      assert Roster(t, ms, us);
    }
  }

  // ----- single calls: records and money -----

  /** The wallet of `u` pays `delta` tokens into the vault (or is paid, when negative). */
  function Pay(s: Ledger, u: User, delta: int): Ledger {
    s.(wallets := s.wallets[u := GetOr(s.wallets, u, 0) - delta], vault := s.vault + delta)
  }

  /** A payment matched by the record of one market keeps every account straight. */
  lemma PaidMoveKeeps(s: Ledger, m: MarketId, u: User, delta: int, b': Book)
    requires Recorded(s) && RecordOk(b') && Moves(BookAt(s.books, m), b', u, delta)
    ensures Recorded(Pay(s, u, delta).(books := s.books[m := b']))
    ensures Balanced(s, Pay(s, u, delta).(books := s.books[m := b']))
  {
    var s' := Pay(s, u, delta).(books := s.books[m := b']);
    forall ms: seq<MarketId>, us: seq<User> | Roster(s', ms, us) ensures Conserved(s, s', ms, us, 0, 0) {
      assert m in s'.books;
      SumMarketsUpdate(WholePool, s.books, ms, m, b');
      forall v ensures Wealth(s', v, ms) == Wealth(s, v, ms) {
        SumMarketsUpdate(StakeOf(v), s.books, ms, m, b');
      }
    }
  }

  /** So does a change to one market's book that moves no money. */
  lemma FreeMoveKeeps(s: Ledger, m: MarketId, b': Book)
    requires Recorded(s) && RecordOk(b') && Moves(BookAt(s.books, m), b', 0, 0)
    ensures Recorded(s.(books := s.books[m := b']))
    ensures Balanced(s, s.(books := s.books[m := b']))
  {
    var s' := s.(books := s.books[m := b']);
    forall ms: seq<MarketId>, us: seq<User> | Roster(s', ms, us) ensures Conserved(s, s', ms, us, 0, 0) {
      assert m in s'.books;
      SumMarketsUpdate(WholePool, s.books, ms, m, b');
      forall v ensures Wealth(s', v, ms) == Wealth(s, v, ms) {
        SumMarketsUpdate(StakeOf(v), s.books, ms, m, b');
      }
    }
  }

  /** Money moves between a wallet and an internal balance. */
  lemma BalanceMoveKeeps(s: Ledger, u: User, delta: int)
    requires Recorded(s) && GetOr(s.balances, u, 0) + delta >= 0
    ensures var s' := Pay(s, u, delta).(balances := s.balances[u := GetOr(s.balances, u, 0) + delta]);
            Recorded(s') && Balanced(s, s')
  {
    var f := s.balances[u := GetOr(s.balances, u, 0) + delta];
    var s' := Pay(s, u, delta).(balances := f);
    forall ms: seq<MarketId>, us: seq<User> | Roster(s', ms, us) ensures Conserved(s, s', ms, us, 0, 0) {
      assert u in s'.balances;
      SumUsersChange(s.balances, f, us, u);
    }
  }

  lemma SameMoneyBalanced(s: Ledger, s': Ledger)
    requires s'.books == s.books && s'.wallets == s.wallets && s'.vault == s.vault && s'.balances == s.balances
    ensures Balanced(s, s')
  {
  }

  lemma PlaceKeeps(s: Ledger, user: User, r: BetRequest, maxFee: int)
    requires Recorded(s) && PlaceBet(s, user, r, maxFee).Ok?
    ensures Recorded(PlaceBet(s, user, r, maxFee).value) && Balanced(s, PlaceBet(s, user, r, maxFee).value)
  {
    var b := BookAt(s.books, r.market);
    PlaceBetShape(s, user, r, maxFee);
    ValidAmount(s, user, r);
    BookRecorded(s, r.market);
    FreeUserEnters(b, user);
    PlaceRecords(b, b.market.value, NewBet(s, user, r), InvalidInput);
    PaidMoveKeeps(s, r.market, user, r.amount, Record(s, s.books, user, r).value);
  }

  /** A cancellation in one equation. */
  lemma CancelShape(s: Ledger, user: User, m: MarketId)
    requires CancelBetCall(s, user, m).Ok?
    ensures var b := BookAt(s.books, m);
            && user in b.bets && b.bets[user].status == Active && b.market.Some?
            && CancelBetCall(s, user, m).value == Pay(s, user, -b.bets[user].amount)
                 .(books := s.books[m := CancelInBook(b, b.market.value, b.bets[user])])
  {
  }

  lemma CancelKeeps(s: Ledger, user: User, m: MarketId)
    requires Recorded(s) && CancelBetCall(s, user, m).Ok?
    ensures Recorded(CancelBetCall(s, user, m).value) && Balanced(s, CancelBetCall(s, user, m).value)
  {
    var b := BookAt(s.books, m);
    BookRecorded(s, m);
    CancelShape(s, user, m);
    CancelRecords(b, user);
    PaidMoveKeeps(s, m, user, -b.bets[user].amount, CancelInBook(b, b.market.value, b.bets[user]));
  }

  /** One refund in one equation. */
  lemma RefundShape(s: Ledger, m: MarketId, u: User)
    requires Recorded(s)
    ensures var b := BookAt(s.books, m);
            if u in b.bets && b.bets[u].status == Active then
              && b.market.Some?
              && (RefundOne(s, m, u).Ok? <==> b.bets[u].amount <= s.vault)
              && (RefundOne(s, m, u).Ok? ==>
                  RefundOne(s, m, u).value == Pay(s, u, -b.bets[u].amount)
                    .(books := s.books[m := RefundInBook(b, b.market.value, b.bets[u])]))
            else RefundOne(s, m, u) == Ok(s)
  {
    BookRecorded(s, m);
  }

  lemma RefundOneKeeps(s: Ledger, m: MarketId, u: User)
    requires Recorded(s) && RefundOne(s, m, u).Ok?
    ensures Recorded(RefundOne(s, m, u).value) && Balanced(s, RefundOne(s, m, u).value)
  {
    var b := BookAt(s.books, m);
    BookRecorded(s, m);
    RefundShape(s, m, u);
    if u in b.bets && b.bets[u].status == Active {
      RefundRecords(b, u);
      PaidMoveKeeps(s, m, u, -b.bets[u].amount, RefundInBook(b, b.market.value, b.bets[u]));
    } else {
      SameMoneyBalanced(s, s);
    }
  }

  lemma {:induction false} RefundEachKeeps(s: Ledger, m: MarketId, us: seq<User>)
    requires Recorded(s) && RefundEach(s, m, us).Ok?
    ensures Recorded(RefundEach(s, m, us).value) && Balanced(s, RefundEach(s, m, us).value)
  {
    if us == [] {
      SameMoneyBalanced(s, s);
    } else {
      var k := |us| - 1;
      RefundEachKeeps(s, m, us[..k]);
      var mid := RefundEach(s, m, us[..k]).value;
      RefundOneKeeps(mid, m, us[k]);
      BalancedTrans(s, mid, RefundEach(s, m, us).value);
    }
  }

  lemma ResolveKeeps(s: Ledger, m: MarketId, ws: seq<Outcome>)
    requires Recorded(s)
    ensures Recorded(ResolveBets(s, m, ws)) && Balanced(s, ResolveBets(s, m, ws))
  {
    var b := BookAt(s.books, m);
    BookRecorded(s, m);
    if b.registry == [] {
      SameMoneyBalanced(s, s);
    } else {
      ResolveRecords(b, ws);
      FreeMoveKeeps(s, m, ResolveBook(b, ws));
    }
  }

  lemma MarketStepKeeps(s: Ledger, step: Step)
    requires Recorded(s) && Call(s, step).Ok? && (step.OpenMarket? || step.Declare?)
    ensures Recorded(After(s, step)) && Balanced(s, After(s, step))
  {
    var b := BookAt(s.books, step.market);
    var b' := BookAt(After(s, step).books, step.market);
    BookRecorded(s, step.market);
    MarketWriteRecords(b, b'.market.value);
    FreeMoveKeeps(s, step.market, b');
  }

  lemma MoneyStepKeeps(s: Ledger, step: Step)
    requires Recorded(s) && Call(s, step).Ok? && (step.DoDeposit? || step.DoWithdraw?)
    ensures Recorded(After(s, step)) && Balanced(s, After(s, step))
  {
    BalanceMoveKeeps(s, step.user, if step.DoDeposit? then step.amount else -step.amount);
  }

  lemma SettingStepKeeps(s: Ledger, step: Step)
    requires Recorded(s) && Call(s, step).Ok?
    requires step.DoSetGlobalLimits? || step.DoSetEventLimits? || step.Tick? || step.SetGate? || step.SetFees?
    ensures Recorded(After(s, step)) && Balanced(s, After(s, step))
  {
    SameMoneyBalanced(s, After(s, step));
  }

  // ----- batches: records and money -----

  lemma {:induction false} StoredSum(s: Ledger, user: User, rs: seq<BetRequest>, q: Measure, ms: seq<MarketId>)
    requires Recorded(s) && Stored(s, user, rs) && NoDup(ms) && forall r | r in rs :: r.market in ms
    ensures SumMarkets(q, StoredBooks(s, user, rs), ms) ==
            SumMarkets(q, s.books, ms) + (if Concerns(q, user) then Amount(rs) - Overpaid(rs) else 0)
  {
    if rs == [] {
    } else {
      var k := |rs| - 1;
      assert rs == rs[..k] + [rs[k]];
      assert rs[k] in rs && forall x | x in rs[..k] :: x in rs;
      assert Stored(s, user, rs[..k]) by { StoredSnoc(s, user, rs[..k], rs[k]); }
      StoredSum(s, user, rs[..k], q, ms);
      StoredSumNext(s, user, rs[..k], rs[k], q, ms);
      assert Amount(rs) == Amount(rs[..k]) + rs[k].amount;
      assert Overpaid(rs) == Overpaid(rs[..k]) + Kept(rs[..k], rs[k].market);
    }
  }

  lemma StoredSumNext(s: Ledger, user: User, rs: seq<BetRequest>, r: BetRequest, q: Measure, ms: seq<MarketId>)
    requires Recorded(s) && Stored(s, user, rs) && Stored(s, user, rs + [r]) && NoDup(ms) && r.market in ms
    ensures SumMarkets(q, StoredBooks(s, user, rs + [r]), ms) ==
            SumMarkets(q, StoredBooks(s, user, rs), ms)
            + (if Concerns(q, user) then r.amount - Kept(rs, r.market) else 0)
  {
    var books, books' := StoredBooks(s, user, rs), StoredBooks(s, user, rs + [r]);
    assert books' == books[r.market := BookAt(books', r.market)] by { StoredSnoc(s, user, rs, r); }
    SumMarketsUpdate(q, books, ms, r.market, BookAt(books', r.market));
    StoredMeasure(s, user, rs, q, r.market);
    StoredMeasure(s, user, rs + [r], q, r.market);
    assert Kept(rs + [r], r.market) == r.amount;
  }

  lemma StoredMeasure(s: Ledger, user: User, rs: seq<BetRequest>, q: Measure, m: MarketId)
    requires Recorded(s) && Stored(s, user, rs)
    ensures Measured(q, BookAt(StoredBooks(s, user, rs), m)) ==
            Measured(q, BookAt(s.books, m)) + (if Concerns(q, user) then Kept(rs, m) else 0)
  {
    StoredRecords(s, user, rs, m);
  }

  lemma {:induction false} StoredNames(s: Ledger, user: User, rs: seq<BetRequest>)
    requires Stored(s, user, rs)
    ensures forall m :: m in StoredBooks(s, user, rs) <==> m in s.books || exists r :: r in rs && r.market == m
  {
    if rs == [] {
    } else {
      var k := |rs| - 1;
      assert rs == rs[..k] + [rs[k]];
      StoredSnoc(s, user, rs[..k], rs[k]);
      StoredNames(s, user, rs[..k]);
      forall m ensures m in StoredBooks(s, user, rs) <==> m in s.books || exists r :: r in rs && r.market == m {
        assert rs[k] in rs;
      }
    }
  }

  /** What the user of a batch pays and gets no bet for: the entries replaced within the batch. */
  lemma BatchKeeps(s: Ledger, user: User, rs: seq<BetRequest>, maxFee: int, key: IdemKey)
    requires Recorded(s) && PlaceBets(s, user, rs, maxFee, key).Ok?
    ensures BatchDone(s, user, rs, PlaceBets(s, user, rs, maxFee, key).value)
  {
    BatchStored(s, user, rs, maxFee, key);
    BatchParts(s, user, rs, key);
  }

  ghost predicate BatchDone(s: Ledger, user: User, rs: seq<BetRequest>, s': Ledger) {
    Positive(rs) && Recorded(s') && Accounted(s, s', user, Overpaid(rs))
  }

  lemma BatchParts(s: Ledger, user: User, rs: seq<BetRequest>, key: IdemKey)
    requires Recorded(s) && Stored(s, user, rs) && Positive(rs)
    ensures BatchDone(s, user, rs, Pay(s, user, Amount(rs)).(books := StoredBooks(s, user, rs),
                                                             consumed := s.consumed + {(user, key)}))
  {
    var s' := Pay(s, user, Amount(rs)).(books := StoredBooks(s, user, rs), consumed := s.consumed + {(user, key)});
    BatchRecords(s, user, rs, s');
    BatchAccounts(s, user, rs, s');
  }

  lemma BatchRecords(s: Ledger, user: User, rs: seq<BetRequest>, s': Ledger)
    requires Recorded(s) && Stored(s, user, rs) && s'.books == StoredBooks(s, user, rs)
    requires s'.globalLimits == s.globalLimits && s'.eventLimits == s.eventLimits && s'.balances == s.balances
    ensures Recorded(s')
  {
    forall m | m in s'.books ensures RecordOk(s'.books[m]) {
      StoredRecords(s, user, rs, m);
    }
  }

  lemma BatchAccounts(s: Ledger, user: User, rs: seq<BetRequest>, s': Ledger)
    requires Recorded(s) && Stored(s, user, rs) && s'.books == StoredBooks(s, user, rs)
    requires s'.vault == s.vault + Amount(rs) && s'.balances == s.balances
    requires s'.wallets == s.wallets[user := GetOr(s.wallets, user, 0) - Amount(rs)]
    ensures Accounted(s, s', user, Overpaid(rs))
  {
    StoredNames(s, user, rs);
    forall ms: seq<MarketId>, us: seq<User> | Roster(s', ms, us) ensures Conserved(s, s', ms, us, user, Overpaid(rs)) {
      forall r | r in rs ensures r.market in ms {
        assert r.market in s'.books;
      }
      StoredSum(s, user, rs, WholePool, ms);
      forall u ensures Wealth(s', u, ms) == Wealth(s, u, ms) - (if u == user then Overpaid(rs) else 0) {
        StoredSum(s, user, rs, StakeOf(u), ms);
      }
    }
  }

  lemma BatchStored(s: Ledger, user: User, rs: seq<BetRequest>, maxFee: int, key: IdemKey)
    requires LimitsOk(s) && PlaceBets(s, user, rs, maxFee, key).Ok?
    ensures Stored(s, user, rs) && Positive(rs) && Amount(rs) > 0
    ensures PlaceBets(s, user, rs, maxFee, key).value ==
            Pay(s, user, Amount(rs)).(books := StoredBooks(s, user, rs), consumed := s.consumed + {(user, key)})
  {
    BatchShape(s, user, rs, maxFee, key);
    forall r | r in rs ensures r.amount > 0 {
      ValidAmount(s, user, r);
    }
  }

  // ----- every call, every run -----

  /** What one call makes a user forfeit, or all users together: only a batch that names a market twice does. */
  function Forfeit(s: Ledger, step: Step, q: Measure): int {
    if step.DoPlaceBatch? && Call(s, step).Ok? && Concerns(q, step.user) then Overpaid(step.requests) else 0
  }

  function Forfeits(s: Ledger, steps: seq<Step>, q: Measure): int {
    if steps == [] then 0
    else
      var k := |steps| - 1;
      Forfeits(s, steps[..k], q) + Forfeit(Run(s, steps[..k]), steps[k], q)
  }

  /** Any call, sound or not, keeps the market records in order, and every token is accounted for. */
  lemma StepRecords(s: Ledger, step: Step)
    requires Recorded(s)
    ensures Recorded(After(s, step))
    ensures if step.DoPlaceBatch? && Call(s, step).Ok?
            then Positive(step.requests) && Accounted(s, After(s, step), step.user, Overpaid(step.requests))
            else Balanced(s, After(s, step))
  {
    if Call(s, step).Err? {
      SameMoneyBalanced(s, s);
    } else {
      match step
      case DoDeposit(u, asset, a) => MoneyStepKeeps(s, step);
      case DoWithdraw(u, asset, a) => MoneyStepKeeps(s, step);
      case DoPlace(u, r, maxFee) => PlaceKeeps(s, u, r, maxFee);
      case DoPlaceBatch(u, rs, maxFee, key) => BatchKeeps(s, u, rs, maxFee, key);
      case DoCancel(u, m) => CancelKeeps(s, u, m);
      case DoRefund(m) => RefundEachKeeps(s, m, BookAt(s.books, m).registry);
      case DoResolve(m, ws) => ResolveKeeps(s, m, ws);
      case OpenMarket(m, os, e, d, p) => MarketStepKeeps(s, step);
      case Declare(m, st, w) => MarketStepKeeps(s, step);
      case _ => SettingStepKeeps(s, step);
    }
  }

  /** A forfeit is never negative, and it is nothing exactly when the batch names no market twice. */
  lemma ForfeitIff(s: Ledger, step: Step)
    requires Recorded(s)
    ensures forall q :: Forfeit(s, step, q) >= 0
    ensures Forfeit(s, step, WholePool) == 0 <==>
              (step.DoPlaceBatch? && Call(s, step).Ok? ==> Distinct(step.requests))
  {
    StepRecords(s, step);
    if step.DoPlaceBatch? && Call(s, step).Ok? {
      OverpaidIff(step.requests);
    }
  }

  lemma {:induction false} RunRecords(s: Ledger, steps: seq<Step>)
    requires Recorded(s)
    ensures Recorded(Run(s, steps))
    ensures forall q :: Forfeits(s, steps, q) >= 0
  {
    if steps == [] {
    } else {
      var k := |steps| - 1;
      RunRecords(s, steps[..k]);
      StepRecords(Run(s, steps[..k]), steps[k]);
      ForfeitIff(Run(s, steps[..k]), steps[k]);
    }
  }

  /** A successful batch that names a market twice. */
  ghost predicate Repeats(s: Ledger, step: Step) {
    step.DoPlaceBatch? && Call(s, step).Ok? && !Distinct(step.requests)
  }

  ghost predicate NoRepeats(s: Ledger, steps: seq<Step>) {
    steps == [] ||
    (NoRepeats(s, steps[..|steps| - 1]) && !Repeats(Run(s, steps[..|steps| - 1]), steps[|steps| - 1]))
  }

  /** A run forfeits nothing exactly when none of its successful batches names a market twice: then the
      contract's surplus and everybody's wealth are constant. */
  lemma {:induction false} NoForfeitsIff(s: Ledger, steps: seq<Step>)
    requires Recorded(s)
    ensures Forfeits(s, steps, WholePool) == 0 <==> NoRepeats(s, steps)
  {
    if steps == [] {
    } else {
      var k := |steps| - 1;
      NoForfeitsIff(s, steps[..k]);
      RunRecords(s, steps[..k]);
      RepeatsIff(Run(s, steps[..k]), steps[k]);
    }
  }

  lemma RepeatsIff(s: Ledger, step: Step)
    requires Recorded(s)
    ensures Forfeit(s, step, WholePool) >= 0
    ensures Forfeit(s, step, WholePool) == 0 <==> !Repeats(s, step)
  {
    ForfeitIff(s, step);
  }

  /** Over every run whatsoever the contract's tokens stay the initial surplus plus internal balances plus
      recorded pools plus what repeated batch entries forfeited, and every single user's wallet, balance
      and recorded stakes stay what they were, less what that user forfeited. */
  lemma {:induction false} RunConserves(s: Ledger, steps: seq<Step>, ms: seq<MarketId>, us: seq<User>)
    requires Recorded(s) && Roster(Run(s, steps), ms, us)
    ensures Roster(s, ms, us)
    ensures Float(Run(s, steps), ms, us) == Float(s, ms, us) + Forfeits(s, steps, WholePool)
    ensures forall u :: Wealth(Run(s, steps), u, ms) == Wealth(s, u, ms) - Forfeits(s, steps, StakeOf(u))
  {
    if steps == [] {
    } else {
      var k := |steps| - 1;
      var mid, step := Run(s, steps[..k]), steps[k];
      RunRecords(s, steps[..k]);
      StepRecords(mid, step);
      assert Roster(mid, ms, us);
      RunConserves(s, steps[..k], ms, us);
      StepConserves(mid, step, ms, us);
    }
  }

  lemma StepConserves(s: Ledger, step: Step, ms: seq<MarketId>, us: seq<User>)
    requires Recorded(s) && Roster(After(s, step), ms, us)
    ensures Float(After(s, step), ms, us) == Float(s, ms, us) + Forfeit(s, step, WholePool)
    ensures forall u :: Wealth(After(s, step), u, ms) == Wealth(s, u, ms) - Forfeit(s, step, StakeOf(u))
  {
    StepRecords(s, step);
    if step.DoPlaceBatch? && Call(s, step).Ok? {
      assert Conserved(s, After(s, step), ms, us, step.user, Overpaid(step.requests));
    } else {
      assert Conserved(s, After(s, step), ms, us, 0, 0);
    }
  }

  /** A freshly deployed contract. */
  ghost predicate Fresh(s: Ledger) {
    s.books == map[] && s.balances == map[] && s.eventLimits == map[] && s.globalLimits == None && s.vault >= 0
  }

  /** From deployment on the vault is exactly the initial vault plus all balances, all pools and all forfeits. */
  lemma LedgerConservation(s: Ledger, steps: seq<Step>, ms: seq<MarketId>, us: seq<User>)
    requires Fresh(s) && Roster(Run(s, steps), ms, us)
    ensures var t := Run(s, steps);
            t.vault == s.vault + SumUsers(t.balances, us) + SumMarkets(WholePool, t.books, ms)
                       + Forfeits(s, steps, WholePool)
  {
    RunConserves(s, steps, ms, us);
    EmptySums(s, ms, us);
  }

  lemma {:induction false} EmptySums(s: Ledger, ms: seq<MarketId>, us: seq<User>)
    requires s.books == map[] && s.balances == map[]
    ensures SumUsers(s.balances, us) == 0 && SumMarkets(WholePool, s.books, ms) == 0
  {
    if ms != [] {
      EmptySums(s, ms[..|ms| - 1], us);
    } else if us != [] {
      EmptySums(s, ms, us[..|us| - 1]);
    }
  }

  // ----- agreement of statistics, records and bets -----

  /** The two calls that can break the agreement on market `m`, each held to exactly the condition under
      which it does not: a batch names the market at most once, and it is resolved only while all its bets
      are at stake. */
  ghost predicate SoundAt(s: Ledger, step: Step, m: MarketId) {
    match step
    case DoPlaceBatch(u, rs, maxFee, key) => PlaceBets(s, u, rs, maxFee, key).Ok? ==> Times(rs, m) <= 1
    case DoResolve(x, ws) => x == m ==> AllAtStake(BookAt(s.books, m))
    case _ => true
  }

  ghost predicate SoundRunAt(s: Ledger, steps: seq<Step>, m: MarketId) {
    steps == [] ||
    (SoundRunAt(s, steps[..|steps| - 1], m) && SoundAt(Run(s, steps[..|steps| - 1]), steps[|steps| - 1], m))
  }

  ghost predicate SoundRun(s: Ledger, steps: seq<Step>) {
    forall m :: SoundRunAt(s, steps, m)
  }

  lemma BookAtOk(s: Ledger, m: MarketId)
    requires Inv(s)
    ensures BookOk(BookAt(s.books, m))
  {
  }

  lemma InvIsRecorded(s: Ledger)
    requires Inv(s)
    ensures Recorded(s)
  {
    forall m | m in s.books ensures RecordOk(s.books[m]) {
      OrderedIsRecorded(s.books[m]);
    }
  }

  lemma {:induction false} RefundEachOrdered(s: Ledger, m: MarketId, us: seq<User>)
    requires Recorded(s) && BookOk(BookAt(s.books, m)) && RefundEach(s, m, us).Ok?
    ensures BookOk(BookAt(RefundEach(s, m, us).value.books, m))
  {
    if us == [] {
    } else {
      var k := |us| - 1;
      RefundEachOrdered(s, m, us[..k]);
      RefundEachKeeps(s, m, us[..k]);
      var mid := RefundEach(s, m, us[..k]).value;
      RefundShape(mid, m, us[k]);
      var b := BookAt(mid.books, m);
      if us[k] in b.bets && b.bets[us[k]].status == Active {
        RefundKeepsBook(b, us[k]);
      }
    }
  }

  lemma {:induction false} RefundElsewhere(s: Ledger, m: MarketId, us: seq<User>, x: MarketId)
    requires m != x && RefundEach(s, m, us).Ok?
    ensures BookAt(RefundEach(s, m, us).value.books, x) == BookAt(s.books, x)
    ensures RefundEach(s, m, us).value.now == s.now
  {
    if us == [] {
    } else {
      RefundElsewhere(s, m, us[..|us| - 1], x);
    }
  }

  lemma PlaceOrdered(s: Ledger, user: User, r: BetRequest, maxFee: int)
    requires LimitsOk(s) && BookOk(BookAt(s.books, r.market)) && PlaceBet(s, user, r, maxFee).Ok?
    ensures BookOk(BookAt(PlaceBet(s, user, r, maxFee).value.books, r.market))
  {
    PlaceBetShape(s, user, r, maxFee);
    ValidAmount(s, user, r);
    PlaceKeepsBook(BookAt(s.books, r.market), NewBet(s, user, r), InvalidInput);
  }

  lemma MarketStepOrdered(s: Ledger, step: Step)
    requires (step.OpenMarket? || step.Declare?) && Call(s, step).Ok? && BookOk(BookAt(s.books, step.market))
    ensures BookOk(BookAt(After(s, step).books, step.market))
  {
    var b, b' := BookAt(s.books, step.market), BookAt(After(s, step).books, step.market);
    SameSums(b, b');
    forall o ensures OutcomeOk(b', o) {
      assert OutcomeOk(b, o);
    }
    forall u ensures VoterOk(b', b'.market.value, u) {
      assert b.market.Some? ==> VoterOk(b, b.market.value, u);
    }
    if b.market.None? {
      TotalZero(Staked, b'.bets, b'.registry);
    }
  }

  lemma BetStepOrdered(s: Ledger, step: Step, m: MarketId)
    requires Recorded(s) && BookOk(BookAt(s.books, m)) && SoundAt(s, step, m) && Call(s, step).Ok?
    requires step.DoPlace? || step.DoCancel?
    ensures BookOk(BookAt(After(s, step).books, m))
  {
    match step
    case DoPlace(u, r, maxFee) =>
      if r.market == m {
        PlaceOrdered(s, u, r, maxFee);
      }
    case DoCancel(u, x) =>
      CancelShape(s, u, x);
      if x == m {
        CancelKeepsBook(BookAt(s.books, m), u);
      }
  }

  lemma BatchOrdered(s: Ledger, user: User, rs: seq<BetRequest>, maxFee: int, key: IdemKey, m: MarketId)
    requires LimitsOk(s) && BookOk(BookAt(s.books, m)) && PlaceBets(s, user, rs, maxFee, key).Ok?
    ensures BookOk(BookAt(PlaceBets(s, user, rs, maxFee, key).value.books, m)) <==> Times(rs, m) <= 1
  {
    BatchStored(s, user, rs, maxFee, key);
    BatchKeepsBookIff(s, user, rs, m);
  }

  lemma PoolStepOrdered(s: Ledger, step: Step, m: MarketId)
    requires Recorded(s) && BookOk(BookAt(s.books, m)) && SoundAt(s, step, m) && Call(s, step).Ok?
    requires step.DoRefund? || step.DoResolve?
    ensures BookOk(BookAt(After(s, step).books, m))
  {
    match step
    case DoRefund(x) =>
      if x == m {
        RefundEachOrdered(s, m, BookAt(s.books, m).registry);
      } else {
        RefundElsewhere(s, x, BookAt(s.books, x).registry, m);
      }
    case DoResolve(x, ws) =>
      if x == m && BookAt(s.books, m).registry != [] {
        ResolveKeepsBook(BookAt(s.books, m), ws);
      }
  }

  /** One call keeps a market's book in order when it is sound there, whatever it does elsewhere. */
  lemma StepKeepsBook(s: Ledger, step: Step, m: MarketId)
    requires Recorded(s) && BookOk(BookAt(s.books, m)) && SoundAt(s, step, m)
    ensures BookOk(BookAt(After(s, step).books, m))
  {
    if Call(s, step).Ok? {
      match step
      case DoPlace(u, r, maxFee) => BetStepOrdered(s, step, m);
      case DoPlaceBatch(u, rs, maxFee, key) => BatchOrdered(s, u, rs, maxFee, key, m);
      case DoCancel(u, x) => BetStepOrdered(s, step, m);
      case DoRefund(x) => PoolStepOrdered(s, step, m);
      case DoResolve(x, ws) => PoolStepOrdered(s, step, m);
      case OpenMarket(x, os, e, d, p) =>
        if x == m {
          MarketStepOrdered(s, step);
        }
      case Declare(x, st, w) =>
        if x == m {
          MarketStepOrdered(s, step);
        }
      case _ =>
    }
  }

  /** Over every run that is sound on a market, whatever happens on the others, that market's registry,
      statistics, record and amount bounds agree with its bets. */
  lemma {:induction false} RunKeepsBook(s: Ledger, steps: seq<Step>, m: MarketId)
    requires Recorded(s) && BookOk(BookAt(s.books, m)) && SoundRunAt(s, steps, m)
    ensures BookOk(BookAt(Run(s, steps).books, m))
  {
    if steps == [] {
    } else {
      var k := |steps| - 1;
      RunKeepsBook(s, steps[..k], m);
      RunRecords(s, steps[..k]);
      StepKeepsBook(Run(s, steps[..k]), steps[k], m);
    }
  }

  /** So over every run that is sound everywhere all of them do, and every pool is the sum of its bets at stake. */
  lemma RunKeeps(s: Ledger, steps: seq<Step>)
    requires Inv(s) && SoundRun(s, steps)
    ensures var t := Run(s, steps); Inv(t) && forall m :: Pool(BookAt(t.books, m)) == Sum(Staked, BookAt(t.books, m))
  {
    var t := Run(s, steps);
    InvIsRecorded(s);
    RunRecords(s, steps);
    forall m ensures BookOk(BookAt(t.books, m)) && Pool(BookAt(t.books, m)) == Sum(Staked, BookAt(t.books, m)) {
      BookAtOk(s, m);
      RunKeepsBook(s, steps, m);
      OrderedIsRecorded(BookAt(t.books, m));
    }
    forall m | m in t.books ensures BookOk(t.books[m]) {
      assert BookAt(t.books, m) == t.books[m];
    }
  }

  lemma OrderedEverywhere(s: Ledger)
    requires LimitsOk(s) && forall u | u in s.balances :: s.balances[u] >= 0
    ensures Inv(s) <==> forall m :: BookOk(BookAt(s.books, m))
  {
    if forall m :: BookOk(BookAt(s.books, m)) {
      forall m | m in s.books ensures BookOk(s.books[m]) {
        assert BookAt(s.books, m) == s.books[m];
      }
    } else if Inv(s) {
      forall m ensures BookOk(BookAt(s.books, m)) {
        BookAtOk(s, m);
      }
    }
  }

  /** A successful batch keeps the ledger in order exactly when it names no market twice. */
  lemma BatchKeepsInvIff(s: Ledger, user: User, rs: seq<BetRequest>, maxFee: int, key: IdemKey)
    requires Inv(s) && PlaceBets(s, user, rs, maxFee, key).Ok?
    ensures Inv(PlaceBets(s, user, rs, maxFee, key).value) <==> Distinct(rs)
  {
    BatchStored(s, user, rs, maxFee, key);
    BatchInvIff(s, user, rs, PlaceBets(s, user, rs, maxFee, key).value);
  }

  lemma BatchInvIff(s: Ledger, user: User, rs: seq<BetRequest>, s': Ledger)
    requires Inv(s) && Stored(s, user, rs) && s'.books == StoredBooks(s, user, rs)
    requires s'.balances == s.balances && s'.globalLimits == s.globalLimits && s'.eventLimits == s.eventLimits
    ensures Inv(s') <==> Distinct(rs)
  {
    DistinctIff(rs);
    forall m ensures BookOk(BookAt(s'.books, m)) <==> Times(rs, m) <= 1 {
      BookAtOk(s, m);
      BatchKeepsBookIff(s, user, rs, m);
    }
    OrderedEverywhere(s');
    if !Distinct(rs) {
      var m :| Times(rs, m) > 1;
      assert !BookOk(BookAt(s'.books, m));
    } else {
      forall m ensures BookOk(BookAt(s'.books, m)) {
        assert Times(rs, m) <= 1;
      }
    }
  }

  /** Resolving keeps the ledger in order exactly when no bet on that market was cancelled or refunded. */
  lemma ResolveKeepsInvIff(s: Ledger, m: MarketId, ws: seq<Outcome>)
    requires Inv(s)
    ensures Inv(ResolveBets(s, m, ws)) <==> AllAtStake(BookAt(s.books, m))
  {
    var b := BookAt(s.books, m);
    BookAtOk(s, m);
    ResolveKeepsBookIff(b, ws);
    if !AllAtStake(b) {
      var u :| u in b.bets && !AtStake(b.bets[u]);
      assert u in b.registry;
      assert m in ResolveBets(s, m, ws).books;
    }
  }
}
