/** What the market records themselves keep in every reachable state, whatever is resolved or batched:
    the stakes map lists exactly one entry per staked bet, every Active bet is in it, and the pool is
    its sum. Unlike the agreement of `BetInvariant` this needs no condition on the calls. */
module BetRecord {
  import opened Common
  import opened BetLedger
  import opened BetInvariant
  import opened BetResolution

  function SumUsers(f: map<User, int>, us: seq<User>): int {
    if us == [] then 0 else SumUsers(f, us[..|us| - 1]) + GetOr(f, us[|us| - 1], 0)
  }

  /** Changing one entry changes the sum by the difference. */
  lemma {:induction false} SumUsersChange(f: map<User, int>, g: map<User, int>, us: seq<User>, u: User)
    requires NoDup(us)
    requires forall v | v != u :: GetOr(g, v, 0) == GetOr(f, v, 0)
    ensures SumUsers(g, us) == SumUsers(f, us) + (if u in us then GetOr(g, u, 0) - GetOr(f, u, 0) else 0)
  {
    if us == [] {
    } else {
      var k := |us| - 1;
      SumUsersChange(f, g, us[..k], u);
      assert us == us[..k] + [us[k]];
    }
  }

  lemma {:induction false} WithinSum(f: map<User, int>, us: seq<User>, u: User)
    requires forall x | x in f :: f[x] >= 0
    ensures SumUsers(f, us) >= 0
    ensures u in us ==> GetOr(f, u, 0) <= SumUsers(f, us)
  {
    if us == [] {
    } else {
      WithinSum(f, us[..|us| - 1], u);
    }
  }

  lemma SumUsersSnoc(f: map<User, int>, us: seq<User>, u: User)
    ensures SumUsers(f, us + [u]) == SumUsers(f, us) + GetOr(f, u, 0)
  {
    assert (us + [u])[..|us|] == us;
  }

  // ----- one market -----

  /** The pool a book records, and what it records as staked by one user. */
  function Pool(b: Book): int {
    if b.market.Some? then b.market.value.totalStaked else 0
  }

  function StakeIn(b: Book, u: User): int {
    if b.market.Some? then GetOr(b.market.value.stakes, u, 0) else 0
  }

  /** A recorded stake is the amount of a bet that was not given back, and every Active bet is recorded. */
  ghost predicate Matches(bets: map<User, Bet>, mk: Market, u: User) {
    && (u in mk.votes <==> u in mk.stakes)
    && (u in mk.stakes ==>
        && u in bets && AtStake(bets[u])
        && mk.stakes[u] == bets[u].amount && mk.votes[u] == bets[u].outcome)
    && (u in bets && bets[u].status == Active ==> u in mk.stakes)
  }

  ghost predicate MarketOk(b: Book) {
    match b.market
    case None => b.bets == map[]
    case Some(mk) =>
      && (forall u :: Matches(b.bets, mk, u))
      && mk.totalStaked == SumUsers(mk.stakes, b.registry)
      && mk.totalStaked <= I128_MAX
  }

  ghost predicate RecordOk(b: Book) {
    RegistryOk(b) && AmountsOk(b) && MarketOk(b)
  }

  ghost predicate Recorded(s: Ledger) {
    && LimitsOk(s)
    && (forall u | u in s.balances :: s.balances[u] >= 0)
    && (forall m | m in s.books :: RecordOk(s.books[m]))
  }

  lemma BookRecorded(s: Ledger, m: MarketId)
    requires Recorded(s)
    ensures RecordOk(BookAt(s.books, m))
  {
  }

  /** The agreement with the bet statuses is the stronger property; under it the pool is the sum of the
      bets at stake. */
  lemma OrderedIsRecorded(b: Book)
    requires BookOk(b)
    ensures RecordOk(b) && Pool(b) == Sum(Staked, b)
  {
    BookBounds(b);
    if b.market.Some? {
      var mk := b.market.value;
      forall u ensures Matches(b.bets, mk, u) {
        assert VoterOk(b, mk, u);
      }
      StakesAgree(b, b.registry);
    } else {
      TotalZero(Staked, b.bets, b.registry);
    }
  }

  lemma {:induction false} StakesAgree(b: Book, us: seq<User>)
    requires BookOk(b) && b.market.Some?
    ensures SumUsers(b.market.value.stakes, us) == Total(Staked, b.bets, us)
  {
    if us == [] {
    } else {
      StakesAgree(b, us[..|us| - 1]);
      assert VoterOk(b, b.market.value, us[|us| - 1]);
    }
  }

  /** An Active bet's amount is recorded as its user's stake and is covered by the recorded pool. */
  lemma ActiveIsCovered(b: Book, u: User)
    requires RecordOk(b) && u in b.bets && b.bets[u].status == Active
    ensures b.market.Some? && StakeIn(b, u) == b.bets[u].amount
    ensures 0 < b.bets[u].amount <= Pool(b) <= I128_MAX
  {
    var mk := b.market.value;
    assert Matches(b.bets, mk, u);
    StakesNonNeg(b);
    WithinSum(mk.stakes, b.registry, u);
  }

  lemma StakesNonNeg(b: Book)
    requires RecordOk(b)
    ensures b.market.Some? ==> forall u | u in b.market.value.stakes :: b.market.value.stakes[u] >= 0
    ensures Pool(b) >= 0
  {
    if b.market.Some? {
      var mk := b.market.value;
      forall u | u in mk.stakes ensures mk.stakes[u] >= 0 {
        assert Matches(b.bets, mk, u);
      }
      WithinSum(mk.stakes, b.registry, 0);
    }
  }

  // ----- writes to one book -----

  /** Between two versions of a book, `delta` tokens of user `u` entered the recorded pool. */
  ghost predicate Moves(b: Book, b': Book, u: User, delta: int) {
    && Pool(b') == Pool(b) + delta
    && forall v :: StakeIn(b', v) == StakeIn(b, v) + (if v == u then delta else 0)
  }

  /** The market record `mk` can take a bet of `user` in book `b`: it fits the other users' bets and
      records nothing for this one. */
  ghost predicate Enters(b: Book, mk: Market, user: User) {
    && RegistryOk(b) && AmountsOk(b)
    && (forall u | u != user :: Matches(b.bets, mk, u))
    && user !in mk.stakes && user !in mk.votes
    && mk.totalStaked == SumUsers(mk.stakes, b.registry)
  }

  lemma FreeUserEnters(b: Book, user: User)
    requires RecordOk(b) && b.market.Some? && CheckNotBet(b, user).Pass?
    ensures Enters(b, b.market.value, user)
  {
    assert Matches(b.bets, b.market.value, user);
  }

  lemma AddedUserSum(f: map<User, int>, registry: seq<User>, u: User, x: int)
    requires NoDup(registry) && u !in f
    ensures SumUsers(f, AddToRegistry(registry, u)) == SumUsers(f, registry)
    ensures SumUsers(f[u := x], AddToRegistry(registry, u)) == SumUsers(f, registry) + x
  {
    SumUsersSnoc(f, registry, u);
    SumUsersChange(f, f[u := x], AddToRegistry(registry, u), u);
  }

  /** Recording a bet against such a market record, again and again if need be: the book is in order each
      time, and holds the record's pool plus the last bet only. */
  lemma PlaceRecords(b: Book, mk: Market, bet: Bet, overflow: Error)
    requires Enters(b, mk, bet.user) && bet.status == Active
    requires MIN_BET_AMOUNT <= bet.amount <= MAX_BET_AMOUNT
    requires PlaceInBook(b, mk, bet, overflow).Ok?
    ensures var b' := PlaceInBook(b, mk, bet, overflow).value;
            && RecordOk(b') && Enters(b', mk, bet.user)
            && Moves(b.(market := Some(mk)), b', bet.user, bet.amount)
  {
    EnterRecords(b, mk, bet, PlaceInBook(b, mk, bet, overflow).value);
  }

  lemma EnterRecords(b: Book, mk: Market, bet: Bet, b': Book)
    requires Enters(b, mk, bet.user) && bet.status == Active
    requires MIN_BET_AMOUNT <= bet.amount <= MAX_BET_AMOUNT && mk.totalStaked + bet.amount <= I128_MAX
    requires b'.bets == StoreBet(b, bet).bets && b'.registry == StoreBet(b, bet).registry
    requires b'.market == Some(EnterMarket(mk, bet))
    ensures RecordOk(b') && Enters(b', mk, bet.user)
    ensures Moves(b.(market := Some(mk)), b', bet.user, bet.amount)
  {
    PlaceKeepsRegistry(b, bet, b');
    EnterSums(b, mk, bet, b');
    EnterMatches(b, mk, bet, b');
    EnterMoves(b, mk, bet, b');
  }

  lemma EnterSums(b: Book, mk: Market, bet: Bet, b': Book)
    requires NoDup(b.registry) && bet.user !in mk.stakes && mk.totalStaked == SumUsers(mk.stakes, b.registry)
    requires b'.registry == StoreBet(b, bet).registry
    ensures mk.totalStaked == SumUsers(mk.stakes, b'.registry)
    ensures EnterMarket(mk, bet).totalStaked == SumUsers(EnterMarket(mk, bet).stakes, b'.registry)
  {
    AddedUserSum(mk.stakes, b.registry, bet.user, bet.amount);
  }

  lemma EnterMoves(b: Book, mk: Market, bet: Bet, b': Book)
    requires bet.user !in mk.stakes && b'.market == Some(EnterMarket(mk, bet))
    ensures Moves(b.(market := Some(mk)), b', bet.user, bet.amount)
  {
  }

  lemma EnterMatches(b: Book, mk: Market, bet: Bet, b': Book)
    requires Enters(b, mk, bet.user) && bet.status == Active
    requires b'.bets == b.bets[bet.user := bet]
    ensures forall u :: Matches(b'.bets, EnterMarket(mk, bet), u)
    ensures forall u | u != bet.user :: Matches(b'.bets, mk, u)
  {
    forall u ensures Matches(b'.bets, EnterMarket(mk, bet), u) {
      if u != bet.user { assert Matches(b.bets, mk, u); }
    }
    forall u | u != bet.user ensures Matches(b'.bets, mk, u) {
      assert Matches(b.bets, mk, u);
    }
  }

  /** A bet given back: stored with a final status, its stake and amount taken off the record. */
  lemma LeaveRecords(b: Book, u: User, status: BetStatus, b': Book)
    requires RecordOk(b) && u in b.bets && b.bets[u].status == Active && b.market.Some?
    requires status == Cancelled || status == Refunded
    requires b'.bets == StoreBet(b, b.bets[u].(status := status)).bets
    requires b'.registry == StoreBet(b, b.bets[u].(status := status)).registry
    requires b'.market == Some(LeaveMarket(b.market.value, u, b.bets[u].amount))
    ensures RecordOk(b') && Moves(b, b', u, -b.bets[u].amount)
  {
    var mk := b.market.value;
    ActiveIsCovered(b, u);
    assert u in b.registry;
    SumUsersChange(mk.stakes, mk.stakes - {u}, b.registry, u);
    forall v ensures Matches(b'.bets, b'.market.value, v) {
      assert Matches(b.bets, mk, v);
    }
  }

  lemma CancelRecords(b: Book, u: User)
    requires RecordOk(b) && u in b.bets && b.bets[u].status == Active && b.market.Some?
    ensures RecordOk(CancelInBook(b, b.market.value, b.bets[u]))
    ensures Moves(b, CancelInBook(b, b.market.value, b.bets[u]), u, -b.bets[u].amount)
  {
    LeaveRecords(b, u, Cancelled, CancelInBook(b, b.market.value, b.bets[u]));
  }

  lemma RefundRecords(b: Book, u: User)
    requires RecordOk(b) && u in b.bets && b.bets[u].status == Active && b.market.Some?
    ensures RecordOk(RefundInBook(b, b.market.value, b.bets[u]))
    ensures Moves(b, RefundInBook(b, b.market.value, b.bets[u]), u, -b.bets[u].amount)
  {
    LeaveRecords(b, u, Refunded, RefundInBook(b, b.market.value, b.bets[u]));
  }

  /** Resolution keeps the record in order even where it revives cancelled or refunded bets: it never
      writes the market, and leaves no bet Active. */
  lemma ResolveRecords(b: Book, ws: seq<Outcome>)
    requires RecordOk(b)
    ensures RecordOk(ResolveBook(b, ws)) && Moves(b, ResolveBook(b, ws), 0, 0)
  {
    var b' := ResolveBook(b, ws);
    ResolveAll(b, ws);
    if b.market.Some? {
      forall u ensures Matches(b'.bets, b'.market.value, u) {
        assert Matches(b.bets, b.market.value, u);
      }
    }
  }

  /** Opening a market, or declaring its state and result, leaves its record in order. */
  lemma MarketWriteRecords(b: Book, mk: Market)
    requires RecordOk(b)
    requires if b.market.Some? then mk == b.market.value.(state := mk.state, winning := mk.winning)
             else mk.votes == map[] && mk.stakes == map[] && mk.totalStaked == 0
    ensures RecordOk(b.(market := Some(mk))) && Moves(b, b.(market := Some(mk)), 0, 0)
  {
    forall u ensures Matches(b.bets, mk, u) {
      assert b.market.Some? ==> Matches(b.bets, b.market.value, u);
    }
    NothingStaked(b.registry);
  }

  lemma NothingStaked(us: seq<User>)
    ensures SumUsers(map[], us) == 0
  {
    if us == [] {
    } else {
      NothingStaked(us[..|us| - 1]);
    }
  }
}
