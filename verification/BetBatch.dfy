/** `place_bets` against the loop of single bets it stands for. */
module BetBatch {
  import opened Common
  import opened BetLedger
  import opened BetInvariant

  /** The plain loop: one `place_bet` after another, stopping at the first failure. */
  function PlaceEach(s: Ledger, user: User, rs: seq<BetRequest>, maxFee: int): Result<Ledger> {
    if rs == [] then Ok(s) else
    var before :- PlaceEach(s, user, rs[..|rs| - 1], maxFee);
    PlaceBet(before, user, rs[|rs| - 1], maxFee)
  }

  ghost predicate Distinct(rs: seq<BetRequest>) {
    forall i, j :: 0 <= i < j < |rs| ==> rs[i].market != rs[j].market
  }

  /** The checks a single bet passes apart from breaker, fees and funds. */
  predicate Valid(s: Ledger, user: User, r: BetRequest) {
    CheckRequest(s, r).Ok? && CheckNotBet(BookAt(s.books, r.market), user).Pass?
  }

  function Amount(rs: seq<BetRequest>): int {
    if rs == [] then 0 else Amount(rs[..|rs| - 1]) + rs[|rs| - 1].amount
  }

  /** The state after `user` has handed over `amount`. */
  function Spend(s: Ledger, user: User, amount: int): Ledger {
    if amount == 0 then s
    else s.(wallets := s.wallets[user := GetOr(s.wallets, user, 0) - amount], vault := s.vault + amount)
  }

  lemma ValidAmount(s: Ledger, user: User, r: BetRequest)
    requires LimitsOk(s) && Valid(s, user, r)
    ensures MIN_BET_AMOUNT <= r.amount <= MAX_BET_AMOUNT
  {
  }

  function SnapshotOf(s: Ledger, rs: seq<BetRequest>): seq<Market>
    requires forall r | r in rs :: BookAt(s.books, r.market).market.Some?
  {
    seq(|rs|, i requires 0 <= i < |rs| => BookAt(s.books, rs[i].market).market.value)
  }

  ghost predicate AllValid(s: Ledger, user: User, rs: seq<BetRequest>) {
    forall r | r in rs :: Valid(s, user, r)
  }

  /** The first pass accepts exactly the batches whose entries are each valid in the starting state. */
  lemma {:induction false} ValidateBatchIff(s: Ledger, user: User, rs: seq<BetRequest>)
    requires LimitsOk(s) && |rs| <= MAX_BATCH_SIZE
    ensures ValidateBatch(s, user, rs).Ok? <==> AllValid(s, user, rs)
    ensures AllValid(s, user, rs) ==> ValidateBatch(s, user, rs).value == (SnapshotOf(s, rs), Amount(rs))
    ensures AllValid(s, user, rs) ==> |rs| * MIN_BET_AMOUNT <= Amount(rs) <= |rs| * MAX_BET_AMOUNT
  {
    if rs == [] {
    } else {
      var k := |rs| - 1;
      ValidateBatchIff(s, user, rs[..k]);
      assert rs == rs[..k] + [rs[k]];
      if AllValid(s, user, rs) {
        assert rs[k] in rs && Valid(s, user, rs[k]);
        ValidAmount(s, user, rs[k]);
        assert SnapshotOf(s, rs) == SnapshotOf(s, rs[..k]) + [BookAt(s.books, rs[k].market).market.value];
      } else if AllValid(s, user, rs[..k]) {
        assert !Valid(s, user, rs[k]);
      }
    }
  }

  /** Markets that are not in the batch keep their books. */
  lemma {:induction false} StoreBatchFrame(books: map<MarketId, Book>, user: User, rs: seq<BetRequest>,
      mks: seq<Market>, now: nat, m: MarketId)
    requires |mks| == |rs|
    requires StoreBatch(books, user, rs, mks, now).Ok?
    requires forall r | r in rs :: r.market != m
    ensures BookAt(StoreBatch(books, user, rs, mks, now).value, m) == BookAt(books, m)
  {
    if rs == [] {
    } else {
      var k := |rs| - 1;
      assert forall r | r in rs[..k] :: r in rs;
      StoreBatchFrame(books, user, rs[..k], mks[..k], now, m);
    }
  }

  lemma OverflowErrorIrrelevant(b: Book, mk: Market, bet: Bet, e: Error, f: Error)
    ensures PlaceInBook(b, mk, bet, e).Ok? == PlaceInBook(b, mk, bet, f).Ok?
    ensures PlaceInBook(b, mk, bet, e).Ok? ==> PlaceInBook(b, mk, bet, e) == PlaceInBook(b, mk, bet, f)
  {
  }

  predicate GuardsPass(s: Ledger, maxFee: int) {
    Admits(s.gate, Betting) && CheckLiveFee(s.fees, maxFee).Pass? && CheckSlippage(s.fees, maxFee).Pass?
  }

  /** The first fee check, on what is stored: nothing is asked of a maximum that is not positive or of fees that
      are switched off; the contract configuration, if there is one, hides the fee configuration. */
  predicate FirstFeeCheck(f: FeeSources, maxFee: int) {
    || maxFee <= 0
    || (match f.config
        case Some(c) => c.enabled ==> c.percentage <= maxFee
        case None => f.feeConfig.enabled ==> f.feeConfig.percentage <= maxFee)
  }

  /** The second one: the percentage of the contract configuration counts whether or not fees are switched on;
      without a configuration it is a legacy entry or two percent, and the fee configuration is not looked at. */
  predicate SecondFeeCheck(f: FeeSources, maxFee: int) {
    match f.config
    case Some(c) => c.percentage <= maxFee
    case None => if f.legacyPlatFee.Some? then f.legacyPlatFee.value <= maxFee else 200 <= maxFee
  }

  /** The guards on breaker and fees are these two checks. */
  lemma GuardsPassIff(s: Ledger, maxFee: int)
    ensures GuardsPass(s, maxFee) <==>
              Admits(s.gate, Betting) && FirstFeeCheck(s.fees, maxFee) && SecondFeeCheck(s.fees, maxFee)
  {
  }

  /** A batch gets past its guards exactly when breaker and both fee checks let it, its size is allowed and its
      key is new. */
  lemma BatchAdmittedIff(s: Ledger, user: User, rs: seq<BetRequest>, maxFee: int, key: IdemKey)
    ensures CheckBatch(s, user, rs, maxFee, key).Pass? <==>
              (&& Admits(s.gate, Betting) && FirstFeeCheck(s.fees, maxFee) && SecondFeeCheck(s.fees, maxFee)
               && 0 < |rs| <= 50 && (user, key) !in s.consumed)
  {
    GuardsPassIff(s, maxFee);
  }

  lemma BatchFeesPassed(s: Ledger, user: User, rs: seq<BetRequest>, maxFee: int, key: IdemKey)
    ensures PlaceBets(s, user, rs, maxFee, key).Ok? ==> FirstFeeCheck(s.fees, maxFee) && SecondFeeCheck(s.fees, maxFee)
  {
    BatchAdmittedIff(s, user, rs, maxFee, key);
  }

  function NewBet(s: Ledger, user: User, r: BetRequest): Bet {
    Bet(user, r.outcome, r.amount, s.now, Active)
  }

  /** One entry as the third pass of a batch would record it, against the market record of `s`. */
  function Record(s: Ledger, books: map<MarketId, Book>, user: User, r: BetRequest): Result<Book>
    requires BookAt(s.books, r.market).market.Some?
  {
    PlaceInBook(BookAt(books, r.market), BookAt(s.books, r.market).market.value, NewBet(s, user, r), InvalidInput)
  }

  /** A single bet in three conditions: valid, affordable, recordable. */
  lemma PlaceBetShape(s: Ledger, user: User, r: BetRequest, maxFee: int)
    requires GuardsPass(s, maxFee)
    ensures PlaceBet(s, user, r, maxFee).Ok? <==>
              (Valid(s, user, r) && 0 <= r.amount <= GetOr(s.wallets, user, 0) && Record(s, s.books, user, r).Ok?)
    ensures PlaceBet(s, user, r, maxFee).Ok? && r.amount > 0 ==>
              PlaceBet(s, user, r, maxFee).value ==
              Spend(s, user, r.amount).(books := s.books[r.market := Record(s, s.books, user, r).value])
  {
    if Valid(s, user, r) {
      var b := BookAt(s.books, r.market);
      OverflowErrorIrrelevant(b, b.market.value, NewBet(s, user, r), Trap, InvalidInput);
    }
  }

  lemma SpendTwice(s: Ledger, user: User, a: int, b: int, books: map<MarketId, Book>, books': map<MarketId, Book>)
    requires a >= 0 && b > 0
    ensures Spend(Spend(s, user, a).(books := books), user, b).(books := books')
            == Spend(s, user, a + b).(books := books')
    ensures GetOr(Spend(s, user, a).wallets, user, 0) == GetOr(s.wallets, user, 0) - a
  {
  }

  /** A bet placed after others that left its own market alone fares as it would have at the start,
      save that the money is gone. */
  lemma PlaceAfter(s: Ledger, user: User, spent: int, books: map<MarketId, Book>, r: BetRequest, maxFee: int)
    requires LimitsOk(s) && GuardsPass(s, maxFee) && spent >= 0
    requires BookAt(books, r.market) == BookAt(s.books, r.market)
    ensures PlacedAfter(s, user, spent, books, r, PlaceBet(Spend(s, user, spent).(books := books), user, r, maxFee))
  {
    PlaceBetShape(Spend(s, user, spent).(books := books), user, r, maxFee);
    SameView(s, user, spent, books, r);
    if Valid(s, user, r) {
      ValidAmount(s, user, r);
      SpendTwice(s, user, spent, r.amount, books,
                 if Record(s, books, user, r).Ok? then books[r.market := Record(s, books, user, r).value] else books);
    }
  }

  /** `placed` is the bet `r` after `spent` was paid and only `books` changed. */
  ghost predicate PlacedAfter(s: Ledger, user: User, spent: int, books: map<MarketId, Book>, r: BetRequest,
                              placed: Result<Ledger>)
  {
    && (placed.Ok? <==>
        (Valid(s, user, r) && spent + r.amount <= GetOr(s.wallets, user, 0) && Record(s, books, user, r).Ok?))
    && (placed.Ok? ==>
        placed.value == Spend(s, user, spent + r.amount).(books := books[r.market := Record(s, books, user, r).value]))
  }

  lemma SameView(s: Ledger, user: User, spent: int, books: map<MarketId, Book>, r: BetRequest)
    requires BookAt(books, r.market) == BookAt(s.books, r.market)
    ensures var t := Spend(s, user, spent).(books := books);
            && Valid(t, user, r) == Valid(s, user, r)
            && (Valid(s, user, r) ==> Record(t, books, user, r) == Record(s, books, user, r))
  {
    assert CheckRequest(Spend(s, user, spent).(books := books), r) == CheckRequest(s, r);
  }

  ghost predicate Stored(s: Ledger, user: User, rs: seq<BetRequest>) {
    AllValid(s, user, rs) && StoreBatch(s.books, user, rs, SnapshotOf(s, rs), s.now).Ok?
  }

  function StoredBooks(s: Ledger, user: User, rs: seq<BetRequest>): map<MarketId, Book>
    requires Stored(s, user, rs)
  {
    StoreBatch(s.books, user, rs, SnapshotOf(s, rs), s.now).value
  }

  lemma StoredSnoc(s: Ledger, user: User, rs: seq<BetRequest>, r: BetRequest)
    ensures Stored(s, user, rs + [r]) <==>
              (Stored(s, user, rs) && Valid(s, user, r) && Record(s, StoredBooks(s, user, rs), user, r).Ok?)
    ensures Stored(s, user, rs + [r]) ==>
              StoredBooks(s, user, rs + [r]) ==
              StoredBooks(s, user, rs)[r.market := Record(s, StoredBooks(s, user, rs), user, r).value]
  {
    assert (rs + [r])[..|rs|] == rs;
    assert AllValid(s, user, rs + [r]) <==> AllValid(s, user, rs) && Valid(s, user, r);
    if AllValid(s, user, rs + [r]) {
      assert SnapshotOf(s, rs + [r])[..|rs|] == SnapshotOf(s, rs);
    }
  }

  /** For distinct markets the loop of single bets succeeds exactly when the batch's three passes do,
      and ends in the same state. */
  lemma {:induction false} PlaceEachIff(s: Ledger, user: User, rs: seq<BetRequest>, maxFee: int)
    requires LimitsOk(s) && Distinct(rs) && |rs| <= MAX_BATCH_SIZE
    requires GuardsPass(s, maxFee) && GetOr(s.wallets, user, 0) >= 0
    ensures PlaceEach(s, user, rs, maxFee).Ok? <==>
              (Stored(s, user, rs) && Amount(rs) <= GetOr(s.wallets, user, 0))
    ensures PlaceEach(s, user, rs, maxFee).Ok? ==>
              PlaceEach(s, user, rs, maxFee).value == Spend(s, user, Amount(rs)).(books := StoredBooks(s, user, rs))
  {
    if rs == [] {
    } else {
      var k := |rs| - 1;
      var r := rs[k];
      assert rs == rs[..k] + [r];
      PlaceEachIff(s, user, rs[..k], maxFee);
      StoredSnoc(s, user, rs[..k], r);
      if PlaceEach(s, user, rs[..k], maxFee).Ok? {
        PlaceEachNext(s, user, rs[..k], r, maxFee);
      } else if Stored(s, user, rs) {
        ValidAmount(s, user, r);
      }
    }
  }

  lemma PlaceEachNext(s: Ledger, user: User, rs: seq<BetRequest>, r: BetRequest, maxFee: int)
    requires LimitsOk(s) && Distinct(rs + [r]) && |rs| < MAX_BATCH_SIZE
    requires GuardsPass(s, maxFee) && Stored(s, user, rs)
    ensures var after := Spend(s, user, Amount(rs)).(books := StoredBooks(s, user, rs));
            NextPlaced(s, user, rs, r, PlaceBet(after, user, r, maxFee))
  {
    PrefixFrame(s, user, rs, r);
    var spent, books := Amount(rs), StoredBooks(s, user, rs);
    PlaceAfter(s, user, spent, books, r, maxFee);
    var placed := PlaceBet(Spend(s, user, spent).(books := books), user, r, maxFee);
    ExtendStored(s, user, rs, r, placed);
  }

  /** `placed` is what the batch `rs + [r]` amounts to. */
  ghost predicate NextPlaced(s: Ledger, user: User, rs: seq<BetRequest>, r: BetRequest, placed: Result<Ledger>) {
    && (placed.Ok? <==> Stored(s, user, rs + [r]) && Amount(rs + [r]) <= GetOr(s.wallets, user, 0))
    && (placed.Ok? ==> placed.value == Spend(s, user, Amount(rs + [r])).(books := StoredBooks(s, user, rs + [r])))
  }

  lemma ExtendStored(s: Ledger, user: User, rs: seq<BetRequest>, r: BetRequest, placed: Result<Ledger>)
    requires Stored(s, user, rs)
    requires PlacedAfter(s, user, Amount(rs), StoredBooks(s, user, rs), r, placed)
    ensures NextPlaced(s, user, rs, r, placed)
  {
    assert (rs + [r])[..|rs|] == rs;
    StoredSnoc(s, user, rs, r);
  }

  lemma PrefixFrame(s: Ledger, user: User, rs: seq<BetRequest>, r: BetRequest)
    requires LimitsOk(s) && Distinct(rs + [r]) && |rs| < MAX_BATCH_SIZE && Stored(s, user, rs)
    ensures Amount(rs) >= 0
    ensures BookAt(StoredBooks(s, user, rs), r.market) == BookAt(s.books, r.market)
  {
    ValidateBatchIff(s, user, rs);
    forall q | q in rs ensures q.market != r.market {
      var i :| 0 <= i < |rs| && rs[i] == q;
      assert (rs + [r])[i].market != (rs + [r])[|rs|].market;
    }
    StoreBatchFrame(s.books, user, rs, SnapshotOf(s, rs), s.now, r.market);
  }

  /** A batch over distinct markets succeeds exactly when its size is allowed, its key is new and the
      loop of single bets would succeed. It then ends where the loop ends, with the key used up;
      otherwise it changes nothing. */
  lemma BatchRefinesSingles(s: Ledger, user: User, rs: seq<BetRequest>, maxFee: int, key: IdemKey)
    requires LimitsOk(s) && Distinct(rs)
    ensures PlaceBets(s, user, rs, maxFee, key).Ok? <==>
              (0 < |rs| <= MAX_BATCH_SIZE && (user, key) !in s.consumed && PlaceEach(s, user, rs, maxFee).Ok?)
    ensures PlaceBets(s, user, rs, maxFee, key).Ok? ==>
              PlaceBets(s, user, rs, maxFee, key).value ==
              PlaceEach(s, user, rs, maxFee).value.(consumed := s.consumed + {(user, key)})
  {
    if !GuardsPass(s, maxFee) {
      GuardsRefuse(s, user, rs, maxFee);
    } else if 0 < |rs| <= MAX_BATCH_SIZE {
      BatchShape(s, user, rs, maxFee, key);
      if GetOr(s.wallets, user, 0) >= 0 {
        PlaceEachIff(s, user, rs, maxFee);
      } else {
        NeedsFunds(s, user, rs, maxFee);
      }
    }
  }

  /** A batch in its four conditions: new key, valid, affordable, recordable. */
  lemma BatchShape(s: Ledger, user: User, rs: seq<BetRequest>, maxFee: int, key: IdemKey)
    requires LimitsOk(s) && GuardsPass(s, maxFee) && 0 < |rs| <= MAX_BATCH_SIZE
    ensures PlaceBets(s, user, rs, maxFee, key).Ok? <==>
              ((user, key) !in s.consumed && Stored(s, user, rs) && Amount(rs) <= GetOr(s.wallets, user, 0))
    ensures PlaceBets(s, user, rs, maxFee, key).Ok? ==>
              (&& Amount(rs) >= |rs| * MIN_BET_AMOUNT
               && PlaceBets(s, user, rs, maxFee, key).value ==
                  Spend(s, user, Amount(rs))
                    .(books := StoredBooks(s, user, rs), consumed := s.consumed + {(user, key)}))
  {
    ValidateBatchIff(s, user, rs);
  }

  /** The breaker and the fee guards refuse a non-empty loop as they refuse a batch. */
  lemma {:induction false} GuardsRefuse(s: Ledger, user: User, rs: seq<BetRequest>, maxFee: int)
    requires !GuardsPass(s, maxFee)
    ensures PlaceEach(s, user, rs, maxFee).Ok? <==> rs == []
  {
    if rs == [] {
    } else {
      GuardsRefuse(s, user, rs[..|rs| - 1], maxFee);
    }
  }

  lemma {:induction false} NeedsFunds(s: Ledger, user: User, rs: seq<BetRequest>, maxFee: int)
    requires GetOr(s.wallets, user, 0) < 0
    ensures PlaceEach(s, user, rs, maxFee).Ok? <==> rs == []
  {
    if rs == [] {
    } else {
      NeedsFunds(s, user, rs[..|rs| - 1], maxFee);
      if |rs| > 1 {
        assert rs[..|rs| - 1] != [];
      }
    }
  }

  // ----- repeated markets -----

  /** How many entries of the batch are for market `m`. */
  function Times(rs: seq<BetRequest>, m: MarketId): nat {
    if rs == [] then 0
    else Times(rs[..|rs| - 1], m) + (if rs[|rs| - 1].market == m then 1 else 0)
  }

  lemma {:induction false} TimesTwice(rs: seq<BetRequest>, m: MarketId, i: nat, j: nat)
    requires i < j < |rs| && rs[i].market == rs[j].market == m
    ensures Times(rs, m) >= 2
  {
    var k := |rs| - 1;
    if j < k {
      TimesTwice(rs[..k], m, i, j);
    } else {
      TimesOnce(rs[..k], m, i);
    }
  }

  lemma {:induction false} TimesOnce(rs: seq<BetRequest>, m: MarketId, i: nat)
    requires i < |rs| && rs[i].market == m
    ensures Times(rs, m) >= 1
  {
    var k := |rs| - 1;
    if i < k {
      TimesOnce(rs[..k], m, i);
    }
  }

  /** The third pass counts every entry in the statistics, but a user can have only one bet on a market. */
  lemma {:induction false} StoreBatchCounts(books: map<MarketId, Book>, user: User, rs: seq<BetRequest>,
      mks: seq<Market>, now: nat, m: MarketId)
    requires |mks| == |rs|
    requires StoreBatch(books, user, rs, mks, now).Ok?
    requires RegistryOk(BookAt(books, m)) && CheckNotBet(BookAt(books, m), user).Pass?
    ensures var b := BookAt(StoreBatch(books, user, rs, mks, now).value, m);
            && RegistryOk(b)
            && b.stats.totalBets == BookAt(books, m).stats.totalBets + Times(rs, m)
            && Sum(Bettors, b) == Sum(Bettors, BookAt(books, m)) + (if Times(rs, m) > 0 then 1 else 0)
            && (if Times(rs, m) > 0 then user in b.bets && b.bets[user].status == Active else b == BookAt(books, m))
  {
    if rs == [] {
    } else {
      var k := |rs| - 1;
      StoreBatchCounts(books, user, rs[..k], mks[..k], now, m);
      if rs[k].market == m {
        var mid := BookAt(StoreBatch(books, user, rs[..k], mks[..k], now).value, m);
        RecordCounts(mid, mks[k], Bet(user, rs[k].outcome, rs[k].amount, now, Active), InvalidInput);
      }
    }
  }

  lemma RecordCounts(b: Book, mk: Market, bet: Bet, overflow: Error)
    requires RegistryOk(b) && bet.status == Active && PlaceInBook(b, mk, bet, overflow).Ok?
    requires bet.user in b.bets ==> b.bets[bet.user].status == Active || b.bets[bet.user].status == Cancelled
    ensures var b' := PlaceInBook(b, mk, bet, overflow).value;
            && RegistryOk(b') && b'.stats.totalBets == b.stats.totalBets + 1
            && bet.user in b'.bets && b'.bets[bet.user].status == Active
            && Sum(Bettors, b') == Sum(Bettors, b)
               + (if bet.user in b.bets && b.bets[bet.user].status == Active then 0 else 1)
  {
    var b', st := PlaceInBook(b, mk, bet, overflow).value, StoreBet(b, bet);
    assert b'.bets == st.bets && b'.registry == st.registry;
    StoreCounts(b, bet, st, b');
  }

  lemma StoreCounts(b: Book, bet: Bet, st: Book, b': Book)
    requires RegistryOk(b) && bet.status == Active && st == StoreBet(b, bet)
    requires b'.bets == st.bets && b'.registry == st.registry
    ensures RegistryOk(b')
    ensures Sum(Bettors, b') == Sum(Bettors, b) + 1 - WeightAt(Bettors, b.bets, bet.user)
  {
    StoreTotal(Bettors, b, bet);
    StoreKeepsRegistry(b, bet);
  }
}
