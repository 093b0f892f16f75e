/** What every reachable book satisfies: the registry lists the bettors once, the running statistics
    equal a recomputation over the registry, and the market record mirrors the bets still at stake. */
module BetInvariant {
  import opened Common
  import opened BetLedger

  /** A quantity that can be recomputed by adding up one number per registered bet. */
  datatype View =
    | Bettors               // bets that were not cancelled
    | Locked                // their amounts
    | OnOutcome(o: Outcome) // their amounts, one outcome only
    | Staked                // amounts still held for the pool: Active, Won or Lost
    | WonOn(o: Outcome)     // amounts of Won bets on one outcome
    | WonBets               // number of Won bets
    | CancelledOn(o: Outcome)
    | ActiveBets            // number of Active bets
    | ActiveAmount          // their amounts
    | ActiveOn(o: Outcome)  // their amounts, one outcome only

  predicate AtStake(bet: Bet) {
    bet.status == Active || bet.status == Won || bet.status == Lost
  }

  function Weight(v: View, bet: Bet): int {
    match v
    case Bettors => if bet.status == Cancelled then 0 else 1
    case Locked => if bet.status == Cancelled then 0 else bet.amount
    case OnOutcome(o) => if bet.status == Cancelled || bet.outcome != o then 0 else bet.amount
    case Staked => if AtStake(bet) then bet.amount else 0
    case WonOn(o) => if bet.status == Won && bet.outcome == o then bet.amount else 0
    case WonBets => if bet.status == Won then 1 else 0
    case CancelledOn(o) => if bet.status == Cancelled && bet.outcome == o then bet.amount else 0
    case ActiveBets => if bet.status == Active then 1 else 0
    case ActiveAmount => if bet.status == Active then bet.amount else 0
    case ActiveOn(o) => if bet.status == Active && bet.outcome == o then bet.amount else 0
  }

  function WeightAt(v: View, bets: map<User, Bet>, u: User): int {
    if u in bets then Weight(v, bets[u]) else 0
  }

  function Total(v: View, bets: map<User, Bet>, us: seq<User>): int {
    if us == [] then 0
    else Total(v, bets, us[..|us| - 1]) + WeightAt(v, bets, us[|us| - 1])
  }

  function Sum(v: View, b: Book): int {
    Total(v, b.bets, b.registry)
  }

  ghost predicate RegistryOk(b: Book) {
    && NoDup(b.registry)
    && (forall u :: u in b.registry <==> u in b.bets)
    && (forall u | u in b.bets :: b.bets[u].user == u)
  }

  ghost predicate AmountsOk(b: Book) {
    forall u | u in b.bets :: MIN_BET_AMOUNT <= b.bets[u].amount <= MAX_BET_AMOUNT
  }

  ghost predicate StatsOk(b: Book) {
    && b.stats.totalBets == b.stats.uniqueBettors == Sum(Bettors, b)
    && b.stats.totalBets <= U32_MAX
    && b.stats.totalLocked == Sum(Locked, b)
    && forall o :: OutcomeOk(b, o)
  }

  /** An outcome has an entry exactly when something is staked on it, and the entry is the sum. */
  ghost predicate OutcomeOk(b: Book, o: Outcome) {
    && GetOr(b.stats.outcomeTotals, o, 0) == Sum(OnOutcome(o), b)
    && (o in b.stats.outcomeTotals <==> Sum(OnOutcome(o), b) > 0)
  }

  ghost predicate MirrorOk(b: Book) {
    match b.market
    case None => b.bets == map[]
    case Some(mk) =>
      && (forall u :: VoterOk(b, mk, u))
      && mk.totalStaked == Sum(Staked, b)
  }

  ghost predicate VoterOk(b: Book, mk: Market, u: User) {
    if u in b.bets && AtStake(b.bets[u]) then
      && u in mk.votes && mk.votes[u] == b.bets[u].outcome
      && u in mk.stakes && mk.stakes[u] == b.bets[u].amount
    else
      u !in mk.votes && u !in mk.stakes
  }

  ghost predicate BookOk(b: Book) {
    RegistryOk(b) && AmountsOk(b) && StatsOk(b) && MirrorOk(b)
  }

  ghost predicate LimitsOk(s: Ledger) {
    && (s.globalLimits.Some? ==> CheckLimits(s.globalLimits.value) == Pass)
    && (forall m | m in s.eventLimits :: CheckLimits(s.eventLimits[m]) == Pass)
  }

  ghost predicate Inv(s: Ledger) {
    && LimitsOk(s)
    && (forall u | u in s.balances :: s.balances[u] >= 0)
    && (forall m | m in s.books :: BookOk(s.books[m]))
  }

  // ----- how a recomputed quantity reacts to one stored bet -----

  lemma TotalUpdate(v: View, bets: map<User, Bet>, us: seq<User>, bet: Bet)
    requires NoDup(us)
    ensures Total(v, bets[bet.user := bet], us) ==
            Total(v, bets, us) + (if bet.user in us then Weight(v, bet) - WeightAt(v, bets, bet.user) else 0)
  {
    if us == [] {
    } else {
      TotalUpdate(v, bets, us[..|us| - 1], bet);
    }
  }

  lemma StoreKeepsRegistry(b: Book, bet: Bet)
    requires RegistryOk(b)
    ensures RegistryOk(StoreBet(b, bet))
  {
  }

  /** Storing a bet changes every recomputed quantity by the new weight minus the replaced one. */
  lemma StoreTotal(v: View, b: Book, bet: Bet)
    requires RegistryOk(b)
    ensures Sum(v, StoreBet(b, bet)) == Sum(v, b) + Weight(v, bet) - WeightAt(v, b.bets, bet.user)
  {
    var us := b.registry;
    TotalUpdate(v, b.bets, us, bet);
    if bet.user !in us {
      assert (us + [bet.user])[..|us|] == us;
    }
  }

  lemma StoreTotalForall(b: Book, bet: Bet)
    requires RegistryOk(b)
    ensures forall v :: Sum(v, StoreBet(b, bet)) == Sum(v, b) + Weight(v, bet) - WeightAt(v, b.bets, bet.user)
  {
    forall v ensures Sum(v, StoreBet(b, bet)) == Sum(v, b) + Weight(v, bet) - WeightAt(v, b.bets, bet.user) {
      StoreTotal(v, b, bet);
    }
  }

  // ----- comparisons between recomputed quantities -----

  ghost predicate Below(v: View, w: View, f: int, bets: map<User, Bet>) {
    forall u | u in bets :: Weight(v, bets[u]) <= f * Weight(w, bets[u])
  }

  lemma TotalBelow(v: View, w: View, f: int, bets: map<User, Bet>, us: seq<User>)
    requires Below(v, w, f, bets)
    ensures Total(v, bets, us) <= f * Total(w, bets, us)
  {
    if us == [] {
    } else {
      var k := |us| - 1;
      TotalBelow(v, w, f, bets, us[..k]);
      assert WeightAt(v, bets, us[k]) <= f * WeightAt(w, bets, us[k]);
      Distribute(f, Total(w, bets, us[..k]), WeightAt(w, bets, us[k]));
    }
  }

  ghost predicate NonNeg(v: View, bets: map<User, Bet>) {
    forall u | u in bets :: Weight(v, bets[u]) >= 0
  }

  lemma WeightBelowTotal(v: View, bets: map<User, Bet>, us: seq<User>, u: User)
    requires NonNeg(v, bets)
    ensures Total(v, bets, us) >= 0
    ensures u in us ==> WeightAt(v, bets, u) <= Total(v, bets, us)
  {
    if us == [] {
    } else {
      WeightBelowTotal(v, bets, us[..|us| - 1], u);
    }
  }

  lemma TotalZero(v: View, bets: map<User, Bet>, us: seq<User>)
    requires forall u | u in us && u in bets :: Weight(v, bets[u]) == 0
    ensures Total(v, bets, us) == 0
  {
    if us == [] {
    } else {
      TotalZero(v, bets, us[..|us| - 1]);
    }
  }

  lemma {:induction false} TotalSame(v: View, w: View, bets: map<User, Bet>, bets': map<User, Bet>, us: seq<User>)
    requires forall u | u in us :: WeightAt(v, bets, u) == WeightAt(w, bets', u)
    ensures Total(v, bets, us) == Total(w, bets', us)
  {
    if us == [] {
    } else {
      TotalSame(v, w, bets, bets', us[..|us| - 1]);
    }
  }

  /** Machine arithmetic never matters in a reachable book: the statistics stay far inside 128 bits,
      the pool is part of what is locked, and no pool or outcome total is negative. */
  lemma BookBounds(b: Book)
    requires BookOk(b)
    ensures 0 <= Sum(Staked, b) <= Sum(Locked, b) <= U32_MAX * MAX_BET_AMOUNT
    ensures forall o :: 0 <= Sum(OnOutcome(o), b) <= Sum(Locked, b)
  {
    TotalBelow(Staked, Locked, 1, b.bets, b.registry);
    TotalBelow(Locked, Bettors, MAX_BET_AMOUNT, b.bets, b.registry);
    WeightBelowTotal(Staked, b.bets, b.registry, 0);
    forall o ensures 0 <= Sum(OnOutcome(o), b) <= Sum(Locked, b) {
      TotalBelow(OnOutcome(o), Locked, 1, b.bets, b.registry);
      WeightBelowTotal(OnOutcome(o), b.bets, b.registry, 0);
    }
  }

  // ----- the writes keep the book in order -----

  /** A new bet can be recorded exactly when the 32-bit bet counter has room: no 128-bit total overflows. */
  lemma PlaceSucceedsIff(b: Book, bet: Bet, overflow: Error)
    requires BookOk(b) && b.market.Some?
    requires MIN_BET_AMOUNT <= bet.amount <= MAX_BET_AMOUNT
    ensures PlaceInBook(b, b.market.value, bet, overflow).Ok? <==> b.stats.totalBets < U32_MAX
  {
    BookBounds(b);
    assert OutcomeOk(b, bet.outcome);
  }

  lemma {:induction false} PlaceKeepsBook(b: Book, bet: Bet, overflow: Error)
    requires BookOk(b) && b.market.Some?
    requires CheckNotBet(b, bet.user) == Pass && bet.status == Active
    requires MIN_BET_AMOUNT <= bet.amount <= MAX_BET_AMOUNT
    requires PlaceInBook(b, b.market.value, bet, overflow).Ok?
    ensures BookOk(PlaceInBook(b, b.market.value, bet, overflow).value)
  {
    PlacedParts(b, bet, overflow, PlaceInBook(b, b.market.value, bet, overflow).value);
  }

  /** The same over the parts of the new book. */
  lemma PlacedParts(b: Book, bet: Bet, overflow: Error, b': Book)
    requires BookOk(b) && b.market.Some?
    requires CheckNotBet(b, bet.user) == Pass && bet.status == Active
    requires MIN_BET_AMOUNT <= bet.amount <= MAX_BET_AMOUNT
    requires PlaceInBook(b, b.market.value, bet, overflow) == Ok(b')
    ensures BookOk(b')
  {
    PlacedSums(b, bet, b');
    PlaceKeepsRegistry(b, bet, b');
    PlaceKeepsStats(b, b', bet);
    PlaceKeepsMirror(b, b', bet);
  }

  lemma PlaceKeepsRegistry(b: Book, bet: Bet, b': Book)
    requires RegistryOk(b) && AmountsOk(b) && MIN_BET_AMOUNT <= bet.amount <= MAX_BET_AMOUNT
    requires b'.bets == StoreBet(b, bet).bets && b'.registry == StoreBet(b, bet).registry
    ensures RegistryOk(b') && AmountsOk(b')
  {
    StoreKeepsRegistry(b, bet);
  }

  lemma PlacedSums(b: Book, bet: Bet, b': Book)
    requires RegistryOk(b)
    requires b'.bets == StoreBet(b, bet).bets && b'.registry == StoreBet(b, bet).registry
    ensures forall v :: Sum(v, b') == Sum(v, b) + Weight(v, bet) - WeightAt(v, b.bets, bet.user)
  {
    StoreTotalForall(b, bet);
    SameSums(b', StoreBet(b, bet));
  }

  lemma PlaceKeepsMirror(b: Book, b': Book, bet: Bet)
    requires MirrorOk(b) && b.market.Some? && bet.status == Active && CheckNotBet(b, bet.user) == Pass
    requires b'.bets == b.bets[bet.user := bet] && b'.market == Some(EnterMarket(b.market.value, bet))
    requires Sum(Staked, b') == Sum(Staked, b) + Weight(Staked, bet) - WeightAt(Staked, b.bets, bet.user)
    ensures MirrorOk(b')
  {
    forall u ensures VoterOk(b', b'.market.value, u) {
      assert VoterOk(b, b.market.value, u);
    }
  }

  lemma SameSums(b: Book, c: Book)
    requires b.bets == c.bets && b.registry == c.registry
    ensures forall v :: Sum(v, b) == Sum(v, c)
  {
  }

  lemma PlaceKeepsStats(b: Book, b': Book, bet: Bet)
    requires BookOk(b) && CheckNotBet(b, bet.user) == Pass && bet.status == Active && bet.amount > 0
    requires AddToStats(b.stats, bet.outcome, bet.amount) == Ok(b'.stats)
    requires forall v :: Sum(v, b') == Sum(v, b) + Weight(v, bet) - WeightAt(v, b.bets, bet.user)
    ensures StatsOk(b')
  {
    BookBounds(b);
    forall o ensures OutcomeOk(b', o) {
      assert OutcomeOk(b, o);
      assert Sum(OnOutcome(o), b') == Sum(OnOutcome(o), b) + Weight(OnOutcome(o), bet);
    }
  }

  /** What cancelling or refunding an Active bet takes away is there to be taken: no subtraction saturates. */
  lemma LeaveIsExact(b: Book, u: User)
    requires BookOk(b) && u in b.bets && b.bets[u].status == Active
    ensures b.market.Some?
    ensures var bet := b.bets[u]; var st := b.stats;
            && st.totalBets >= 1 && st.uniqueBettors >= 1
            && bet.amount <= b.market.value.totalStaked
            && bet.amount <= st.totalLocked
            && bet.amount <= GetOr(st.outcomeTotals, bet.outcome, 0)
            && SatSubI128(b.market.value.totalStaked, bet.amount) == b.market.value.totalStaked - bet.amount
            && SatSubI128(st.totalLocked, bet.amount) == st.totalLocked - bet.amount
            && SatSubI128(GetOr(st.outcomeTotals, bet.outcome, 0), bet.amount)
               == GetOr(st.outcomeTotals, bet.outcome, 0) - bet.amount
  {
    var bet := b.bets[u];
    assert u in b.registry;
    BookBounds(b);
    WeightBelowTotal(Staked, b.bets, b.registry, u);
    WeightBelowTotal(Bettors, b.bets, b.registry, u);
    WeightBelowTotal(Locked, b.bets, b.registry, u);
    WeightBelowTotal(OnOutcome(bet.outcome), b.bets, b.registry, u);
    assert OutcomeOk(b, bet.outcome);
  }

  lemma {:induction false} CancelKeepsBook(b: Book, u: User)
    requires BookOk(b) && u in b.bets && b.bets[u].status == Active && b.market.Some?
    ensures BookOk(CancelInBook(b, b.market.value, b.bets[u]))
  {
    var bet := b.bets[u];
    var c := bet.(status := Cancelled);
    var b' := CancelInBook(b, b.market.value, bet);
    var st := StoreBet(b, c);
    LeaveIsExact(b, u);
    StoreTotalForall(b, c);
    StoreKeepsRegistry(b, c);
    assert forall v :: Sum(v, b') == Sum(v, st);
    BookBounds(b);
    forall o ensures OutcomeOk(b', o) {
      assert OutcomeOk(b, o);
      assert Sum(OnOutcome(o), b') == Sum(OnOutcome(o), st);
    }
    forall x ensures VoterOk(b', b'.market.value, x) {
      assert VoterOk(b, b.market.value, x);
    }
    assert Sum(Bettors, b') == Sum(Bettors, st);
    assert Sum(Locked, b') == Sum(Locked, st);
    assert Sum(Staked, b') == Sum(Staked, st);
  }

  lemma {:induction false} RefundKeepsBook(b: Book, u: User)
    requires BookOk(b) && u in b.bets && b.bets[u].status == Active && b.market.Some?
    ensures BookOk(RefundInBook(b, b.market.value, b.bets[u]))
  {
    var bet := b.bets[u];
    var c := bet.(status := Refunded);
    var b' := RefundInBook(b, b.market.value, bet);
    var st := StoreBet(b, c);
    LeaveIsExact(b, u);
    StoreTotalForall(b, c);
    StoreKeepsRegistry(b, c);
    assert forall v :: Sum(v, b') == Sum(v, st);
    forall o ensures OutcomeOk(b', o) {
      assert OutcomeOk(b, o);
      assert Sum(OnOutcome(o), b') == Sum(OnOutcome(o), st);
    }
    forall x ensures VoterOk(b', b'.market.value, x) {
      assert VoterOk(b, b.market.value, x);
    }
    assert Sum(Bettors, b') == Sum(Bettors, st);
    assert Sum(Locked, b') == Sum(Locked, st);
    assert Sum(Staked, b') == Sum(Staked, st);
  }
}
