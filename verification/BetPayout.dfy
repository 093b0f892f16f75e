/** What winning bets are paid, and how the payouts of a whole market relate to its pool:
    never more than the pool, and with everybody paid at one fee rate less than one unit
    short per winning bet. */
module BetPayout {
  import opened Common
  import opened BetLedger
  import opened BetInvariant
  import opened BetResolution
  import opened BetRecord
  import opened BetCover

  const BPS: int := 10_000

  /** The payout of one user. `feeAt` is the historical fee rate at a bet's timestamp; the pool and
      the number of winning outcomes are those of the market record at resolution. */
  function Payout(b: Book, u: User, feeAt: nat -> int): Result<int> {
    if u !in b.bets then Err(NothingToClaim) else
    var bet := b.bets[u];
    if bet.status != Won then Ok(0) else
    :- Need(b.market.Some?, MarketNotFound);
    var mk := b.market.value;
    :- Need(mk.winning.Some?, MarketNotResolved);
    var winners := |mk.winning.value|;
    if winners == 0 then Ok(0) else
    var onOutcome := GetOr(b.stats.outcomeTotals, bet.outcome, 0);
    if onOutcome == 0 then Ok(0) else
    :- Need(InI128(mk.totalStaked * feeAt(bet.timestamp)), Trap);
    var fee := Quot(mk.totalStaked * feeAt(bet.timestamp), BPS);
    var perWinner := Quot(mk.totalStaked - fee, winners);
    :- Need(InI128(bet.amount * perWinner), InvalidInput);
    Ok(Quot(bet.amount * perWinner, onOutcome))
  }

  function Paid(b: Book, u: User, feeAt: nat -> int): int {
    var p := Payout(b, u, feeAt);
    if p.Ok? then p.value else 0
  }

  /** Everything the listed users can claim. */
  function PaidOut(b: Book, us: seq<User>, feeAt: nat -> int): int {
    if us == [] then 0 else PaidOut(b, us[..|us| - 1], feeAt) + Paid(b, us[|us| - 1], feeAt)
  }

  ghost predicate FeesOk(feeAt: nat -> int) {
    forall t :: 0 <= feeAt(t) <= BPS
  }

  /** A market resolved to the outcomes `ws`, with its pool in the range no product can leave 128 bits from. */
  ghost predicate Priced(b: Book, ws: seq<Outcome>) {
    && RegistryOk(b) && AmountsOk(b)
    && b.market.Some? && b.market.value.winning == Some(ws) && NoDup(ws)
    && 0 <= b.market.value.totalStaked <= U32_MAX * MAX_BET_AMOUNT
    && (forall u | u in b.bets :: b.bets[u].status == Won ==> b.bets[u].outcome in ws)
  }

  /** Whose statistics, moreover, cover what was won on each of them. */
  ghost predicate Payable(b: Book, ws: seq<Outcome>) {
    && Priced(b, ws)
    && (forall o | o in ws :: 0 <= Sum(WonOn(o), b) <= GetOr(b.stats.outcomeTotals, o, 0))
  }

  /** The share of one winning outcome in the pool, after a fee of `rate` basis points. */
  function PerWinner(pool: int, rate: int, winners: int): int
    requires winners > 0
  {
    (pool - pool * rate / BPS) / winners
  }

  lemma PerWinnerBounds(pool: int, rate: int, winners: int)
    requires winners > 0 && pool >= 0 && 0 <= rate <= BPS
    ensures 0 <= pool * rate <= pool * BPS
    ensures 0 <= pool * rate / BPS <= pool
    ensures 0 <= PerWinner(pool, rate, winners) <= pool / winners <= pool
    ensures winners * PerWinner(pool, rate, winners) <= pool - pool * rate / BPS
    ensures pool - pool * rate / BPS <= winners * PerWinner(pool, rate, winners) + (winners - 1)
  {
    MulMono(pool, 0, rate);
    MulMono(pool, rate, BPS);
    DivLe(pool * rate, BPS, pool);
    DivGe(pool * rate, BPS, 0);
    var d := pool - pool * rate / BPS;
    DivBounds(d, winners);
    DivBounds(pool, winners);
    DivGe(d, winners, 0);
    DivGe(pool, winners, d / winners);
    MulMono(pool, 1, winners);
    DivLe(pool, winners, pool);
  }

  /** The value of a winner's payout: no step of the calculation overflows or fails. */
  lemma PayoutValue(b: Book, ws: seq<Outcome>, u: User, feeAt: nat -> int)
    requires Priced(b, ws) && FeesOk(feeAt)
    requires u in b.bets && b.bets[u].status == Won
    requires GetOr(b.stats.outcomeTotals, b.bets[u].outcome, 0) > 0
    ensures |ws| > 0
    ensures Payout(b, u, feeAt) ==
            Ok(b.bets[u].amount * PerWinner(b.market.value.totalStaked, feeAt(b.bets[u].timestamp), |ws|)
               / GetOr(b.stats.outcomeTotals, b.bets[u].outcome, 0))
  {
    var bet := b.bets[u];
    assert bet.outcome in ws;
    var pool := b.market.value.totalStaked;
    var rate := feeAt(bet.timestamp);
    PerWinnerBounds(pool, rate, |ws|);
    var q := PerWinner(pool, rate, |ws|);
    MulMono(q, bet.amount, MAX_BET_AMOUNT);
    MulMono(MAX_BET_AMOUNT, q, pool);
    MulMono(q, 0, bet.amount);
    assert 0 <= bet.amount * q <= MAX_BET_AMOUNT * (U32_MAX * MAX_BET_AMOUNT);
  }

  // ----- payouts on one winning outcome -----

  predicate WonHere(b: Book, u: User, o: Outcome) {
    u in b.bets && b.bets[u].status == Won && b.bets[u].outcome == o
  }

  function PaidOn(b: Book, us: seq<User>, o: Outcome, feeAt: nat -> int): int {
    if us == [] then 0
    else
      var u := us[|us| - 1];
      PaidOn(b, us[..|us| - 1], o, feeAt) + (if WonHere(b, u, o) then Paid(b, u, feeAt) else 0)
  }

  /** The winning stakes on one outcome, in registry order. */
  function WonStakes(b: Book, us: seq<User>, o: Outcome): seq<int> {
    if us == [] then []
    else
      var u := us[|us| - 1];
      var before := WonStakes(b, us[..|us| - 1], o);
      if WonHere(b, u, o) then before + [b.bets[u].amount] else before
  }

  lemma WonStakesSum(b: Book, us: seq<User>, o: Outcome)
    ensures SumInts(WonStakes(b, us, o)) == Total(WonOn(o), b.bets, us)
  {
    if us == [] {
    } else {
      var k := |us| - 1;
      WonStakesSum(b, us[..k], o);
      if WonHere(b, us[k], o) {
        SumSnoc(WonStakes(b, us[..k], o), b.bets[us[k]].amount);
      }
    }
  }

  lemma SumSnoc(s: seq<int>, a: int)
    ensures SumInts(s + [a]) == SumInts(s) + a
  {
    assert (s + [a])[..|s|] == s;
  }

  lemma SharesSnoc(s: seq<int>, a: int, pool: int, total: int)
    requires total > 0
    ensures SumInts(Shares(s + [a], pool, total)) == SumInts(Shares(s, pool, total)) + a * pool / total
  {
    assert Shares(s + [a], pool, total) == Shares(s, pool, total) + [a * pool / total];
    SumSnoc(Shares(s, pool, total), a * pool / total);
  }

  ghost predicate Uniform(feeAt: nat -> int, rate: int) {
    forall t :: feeAt(t) == rate
  }

  /** One winner gets at most the floored share of `pool / winners`, and exactly the floored share of
      `PerWinner` at that bet's own fee rate. */
  lemma PaidShare(b: Book, ws: seq<Outcome>, u: User, o: Outcome, feeAt: nat -> int)
    requires Priced(b, ws) && FeesOk(feeAt) && o in ws && WonHere(b, u, o)
    requires GetOr(b.stats.outcomeTotals, o, 0) > 0
    ensures Paid(b, u, feeAt) <=
              b.bets[u].amount * (b.market.value.totalStaked / |ws|) / GetOr(b.stats.outcomeTotals, o, 0)
    ensures Paid(b, u, feeAt) == b.bets[u].amount
            * PerWinner(b.market.value.totalStaked, feeAt(b.bets[u].timestamp), |ws|)
            / GetOr(b.stats.outcomeTotals, o, 0)
  {
    var pool := b.market.value.totalStaked;
    var bet := b.bets[u];
    PayoutValue(b, ws, u, feeAt);
    PerWinnerBounds(pool, feeAt(bet.timestamp), |ws|);
    ShareMono(bet.amount, PerWinner(pool, feeAt(bet.timestamp), |ws|), pool / |ws|, GetOr(b.stats.outcomeTotals, o, 0));
  }

  /** On one winning outcome the users together get at most the floored shares of `pool / winners`. */
  lemma {:induction false} PaidOnAtMost(b: Book, ws: seq<Outcome>, us: seq<User>, o: Outcome, feeAt: nat -> int)
    requires Priced(b, ws) && FeesOk(feeAt) && o in ws
    requires GetOr(b.stats.outcomeTotals, o, 0) > 0
    ensures PaidOn(b, us, o, feeAt) <=
              SumInts(Shares(WonStakes(b, us, o), b.market.value.totalStaked / |ws|,
                             GetOr(b.stats.outcomeTotals, o, 0)))
  {
    if us == [] {
    } else {
      var k := |us| - 1;
      PaidOnAtMost(b, ws, us[..k], o, feeAt);
      if WonHere(b, us[k], o) {
        PaidShare(b, ws, us[k], o, feeAt);
        SharesSnoc(WonStakes(b, us[..k], o), b.bets[us[k]].amount,
                   b.market.value.totalStaked / |ws|, GetOr(b.stats.outcomeTotals, o, 0));
      }
    }
  }

  /** With one fee rate they get exactly the floored shares of `PerWinner`. */
  lemma {:induction false} PaidOnExactly(b: Book, ws: seq<Outcome>, us: seq<User>, o: Outcome, feeAt: nat -> int,
      rate: int)
    requires Priced(b, ws) && FeesOk(feeAt) && Uniform(feeAt, rate) && o in ws
    requires GetOr(b.stats.outcomeTotals, o, 0) > 0
    ensures PaidOn(b, us, o, feeAt) == SumInts(Shares(
              WonStakes(b, us, o), PerWinner(b.market.value.totalStaked, rate, |ws|),
              GetOr(b.stats.outcomeTotals, o, 0)))
  {
    if us == [] {
    } else {
      var k := |us| - 1;
      var q, total := PerWinner(b.market.value.totalStaked, rate, |ws|), GetOr(b.stats.outcomeTotals, o, 0);
      PaidOnExactly(b, ws, us[..k], o, feeAt, rate);
      if WonHere(b, us[k], o) {
        assert Paid(b, us[k], feeAt) == b.bets[us[k]].amount * q / total by {
          PaidShare(b, ws, us[k], o, feeAt);
          assert feeAt(b.bets[us[k]].timestamp) == rate;
        }
        SharesSnoc(WonStakes(b, us[..k], o), b.bets[us[k]].amount, q, total);
      }
    }
  }

  lemma ShareMono(a: int, p: int, q: int, total: int)
    requires a >= 0 && p <= q && total > 0
    ensures a * p / total <= a * q / total
  {
    MulMono(a, p, q);
    DivBounds(a * p, total);
    DivGe(a * q, total, a * p / total);
  }

  lemma PaidOnNothing(b: Book, us: seq<User>, o: Outcome, feeAt: nat -> int)
    requires GetOr(b.stats.outcomeTotals, o, 0) == 0
    ensures PaidOn(b, us, o, feeAt) == 0
  {
    if us == [] {
    } else {
      PaidOnNothing(b, us[..|us| - 1], o, feeAt);
    }
  }

  /** One winning outcome never costs more than its equal share of the pool. */
  lemma PaidOnBounded(b: Book, ws: seq<Outcome>, o: Outcome, feeAt: nat -> int)
    requires Payable(b, ws) && FeesOk(feeAt) && o in ws
    ensures PaidOn(b, b.registry, o, feeAt) <= b.market.value.totalStaked / |ws|
  {
    var pool, total := b.market.value.totalStaked, GetOr(b.stats.outcomeTotals, o, 0);
    PerWinnerBounds(pool, 0, |ws|);
    if total == 0 {
      PaidOnNothing(b, b.registry, o, feeAt);
    } else {
      WonStakesSum(b, b.registry, o);
      PaidOnAtMost(b, ws, b.registry, o, feeAt);
      SharesBounded(WonStakes(b, b.registry, o), pool / |ws|, total);
    }
  }

  lemma PaidOnUniform(b: Book, ws: seq<Outcome>, o: Outcome, feeAt: nat -> int, rate: int)
    requires Payable(b, ws) && FeesOk(feeAt) && Uniform(feeAt, rate) && o in ws
    ensures PaidOn(b, b.registry, o, feeAt) <= PerWinner(b.market.value.totalStaked, rate, |ws|)
  {
    var pool, total := b.market.value.totalStaked, GetOr(b.stats.outcomeTotals, o, 0);
    assert feeAt(0) == rate;
    PerWinnerBounds(pool, rate, |ws|);
    if total == 0 {
      PaidOnNothing(b, b.registry, o, feeAt);
    } else {
      WonStakesSum(b, b.registry, o);
      PaidOnExactly(b, ws, b.registry, o, feeAt, rate);
      SharesBounded(WonStakes(b, b.registry, o), PerWinner(pool, rate, |ws|), total);
    }
  }

  /** With one fee rate a winning outcome whose won stakes exceed its total by `extra` pays its equal share and
      the floored share of the excess, but for less than one unit per winning bet. */
  lemma PaidOnAtLeast(b: Book, ws: seq<Outcome>, o: Outcome, feeAt: nat -> int, rate: int, extra: int)
    requires Priced(b, ws) && FeesOk(feeAt) && Uniform(feeAt, rate) && o in ws && extra >= 0
    requires GetOr(b.stats.outcomeTotals, o, 0) > 0
    requires Sum(WonOn(o), b) == GetOr(b.stats.outcomeTotals, o, 0) + extra
    ensures var q := PerWinner(b.market.value.totalStaked, rate, |ws|);
            q + extra * q / GetOr(b.stats.outcomeTotals, o, 0) - (|WonStakes(b, b.registry, o)| - 1)
              <= PaidOn(b, b.registry, o, feeAt)
  {
    var pool, total := b.market.value.totalStaked, GetOr(b.stats.outcomeTotals, o, 0);
    assert feeAt(0) == rate;
    PerWinnerBounds(pool, rate, |ws|);
    WonStakesSum(b, b.registry, o);
    PaidOnExactly(b, ws, b.registry, o, feeAt, rate);
    SharesAtLeast(WonStakes(b, b.registry, o), PerWinner(pool, rate, |ws|), total, extra);
  }

  // ----- all winning outcomes together -----

  function PaidOnEach(b: Book, us: seq<User>, os: seq<Outcome>, feeAt: nat -> int): int {
    if os == [] then 0
    else PaidOnEach(b, us, os[..|os| - 1], feeAt) + PaidOn(b, us, os[|os| - 1], feeAt)
  }

  function WonCount(b: Book, us: seq<User>, os: seq<Outcome>): nat {
    if os == [] then 0
    else WonCount(b, us, os[..|os| - 1]) + |WonStakes(b, us, os[|os| - 1])|
  }

  /** Adding a user adds that user's payout and count to exactly one of the winning outcomes. */
  lemma {:induction false} EachSnoc(b: Book, us: seq<User>, u: User, os: seq<Outcome>, feeAt: nat -> int)
    requires NoDup(os)
    ensures var won := u in b.bets && b.bets[u].status == Won && b.bets[u].outcome in os;
            && PaidOnEach(b, us + [u], os, feeAt) == PaidOnEach(b, us, os, feeAt) +
                (if won then Paid(b, u, feeAt) else 0)
            && WonCount(b, us + [u], os) == WonCount(b, us, os) + (if won then 1 else 0)
  {
    if os == [] {
    } else {
      EachSnoc(b, us, u, os[..|os| - 1], feeAt);
      assert (us + [u])[..|us|] == us;
    }
  }

  lemma {:induction false} EachEmpty(b: Book, os: seq<Outcome>, feeAt: nat -> int)
    ensures PaidOnEach(b, [], os, feeAt) == 0 && WonCount(b, [], os) == 0
  {
    if os == [] {
    } else {
      EachEmpty(b, os[..|os| - 1], feeAt);
    }
  }

  /** Grouping the payouts by winning outcome loses none and counts none twice. */
  lemma {:induction false} PaidOutByOutcome(b: Book, ws: seq<Outcome>, us: seq<User>, feeAt: nat -> int)
    requires NoDup(ws)
    requires forall u | u in b.bets :: b.bets[u].status == Won ==> b.bets[u].outcome in ws
    ensures PaidOut(b, us, feeAt) == PaidOnEach(b, us, ws, feeAt)
    ensures Total(WonBets, b.bets, us) == WonCount(b, us, ws)
  {
    if us == [] {
      EachEmpty(b, ws, feeAt);
    } else {
      var k := |us| - 1;
      PaidOutByOutcome(b, ws, us[..k], feeAt);
      EachSnoc(b, us[..k], us[k], ws, feeAt);
      assert us == us[..k] + [us[k]];
    }
  }

  lemma {:induction false} EachAtMost(b: Book, us: seq<User>, os: seq<Outcome>, feeAt: nat -> int, q: int)
    requires forall o | o in os :: PaidOn(b, us, o, feeAt) <= q
    ensures PaidOnEach(b, us, os, feeAt) <= |os| * q
  {
    if os == [] {
    } else {
      var k := |os| - 1;
      EachAtMost(b, us, os[..k], feeAt, q);
      Distribute(q, k, 1);
    }
  }

  ghost predicate AllCounted(st: BetStats, os: seq<Outcome>) {
    forall o | o in os :: GetOr(st.outcomeTotals, o, 0) > 0
  }

  /** What the cancelled bets on one outcome, once revived, claim of its share `q` of the pool. */
  function RevivedShare(b: Book, o: Outcome, q: int): int
    requires GetOr(b.stats.outcomeTotals, o, 0) > 0
  {
    Sum(CancelledOn(o), b) * q / GetOr(b.stats.outcomeTotals, o, 0)
  }

  /** And on all of the outcomes `os`. */
  function RevivedShares(b: Book, os: seq<Outcome>, q: int): int
    requires AllCounted(b.stats, os)
  {
    if os == [] then 0
    else RevivedShares(b, os[..|os| - 1], q) + RevivedShare(b, os[|os| - 1], q)
  }

  lemma {:induction false} EachAtLeast(b: Book, b': Book, os: seq<Outcome>, feeAt: nat -> int, q: int)
    requires AllCounted(b.stats, os)
    requires forall o | o in os ::
               q + RevivedShare(b, o, q) - (|WonStakes(b', b'.registry, o)| - 1) <= PaidOn(b', b'.registry, o, feeAt)
    ensures |os| * q + RevivedShares(b, os, q) - (WonCount(b', b'.registry, os) - |os|)
              <= PaidOnEach(b', b'.registry, os, feeAt)
  {
    if os == [] {
    } else {
      var k := |os| - 1;
      assert forall o | o in os[..k] :: o in os;
      EachAtLeast(b, b', os[..k], feeAt, q);
      EachStep(b, b', os, feeAt, q);
    }
  }

  lemma EachStep(b: Book, b': Book, os: seq<Outcome>, feeAt: nat -> int, q: int)
    requires os != [] && AllCounted(b.stats, os)
    requires var k := |os| - 1;
             && AllCounted(b.stats, os[..k])
             && k * q + RevivedShares(b, os[..k], q) - (WonCount(b', b'.registry, os[..k]) - k)
                <= PaidOnEach(b', b'.registry, os[..k], feeAt)
             && q + RevivedShare(b, os[k], q) - (|WonStakes(b', b'.registry, os[k])| - 1)
                <= PaidOn(b', b'.registry, os[k], feeAt)
    ensures |os| * q + RevivedShares(b, os, q) - (WonCount(b', b'.registry, os) - |os|)
              <= PaidOnEach(b', b'.registry, os, feeAt)
  {
    Distribute(q, |os| - 1, 1);
  }

  /** Cancelled bets elsewhere claim nothing of the winning outcomes. */
  lemma {:induction false} RevivedNothing(b: Book, os: seq<Outcome>, q: int)
    requires AllCounted(b.stats, os) && NoneCancelledOn(b, os)
    ensures RevivedShares(b, os, q) == 0
  {
    if os == [] {
    } else {
      var k := |os| - 1;
      assert forall o | o in os[..k] :: o in os;
      RevivedNothing(b, os[..k], q);
      TotalZero(CancelledOn(os[k]), b.bets, b.registry);
    }
  }

  // ----- the results for a resolved market -----

  ghost predicate NoneCancelledOn(b: Book, ws: seq<Outcome>) {
    forall u | u in b.bets :: b.bets[u].status == Cancelled ==> b.bets[u].outcome !in ws
  }

  lemma ResolvedPriced(b: Book, ws: seq<Outcome>)
    requires RecordOk(b) && Covers(b, NotCancelled)
    requires b.market.Some? && b.market.value.winning == Some(ws) && NoDup(ws)
    ensures Priced(ResolveBook(b, ws), ws)
    ensures forall o | o in ws ::
              Sum(WonOn(o), ResolveBook(b, ws)) == Sum(OnOutcome(o), b) + Sum(CancelledOn(o), b)
  {
    var b' := ResolveBook(b, ws);
    ResolveAll(b, ws);
    PoolBounded(b);
    forall o | o in ws ensures Sum(WonOn(o), b') == Sum(OnOutcome(o), b) + Sum(CancelledOn(o), b) {
      WonSums(b, b', ws, o);
    }
  }

  /** Statistics that cover the bets are enough for payment. */
  lemma ResolvedPayable(b: Book, ws: seq<Outcome>)
    requires RecordOk(b) && Covers(b, NotCancelled)
    requires b.market.Some? && b.market.value.winning == Some(ws) && NoDup(ws) && NoneCancelledOn(b, ws)
    ensures Payable(ResolveBook(b, ws), ws)
  {
    var b' := ResolveBook(b, ws);
    ResolveAll(b, ws);
    ResolvedPriced(b, ws);
    forall o | o in ws ensures 0 <= Sum(WonOn(o), b') <= GetOr(b.stats.outcomeTotals, o, 0) {
      TotalZero(CancelledOn(o), b.bets, b.registry);
      SumsNonNeg(b, NotCancelled, o);
      assert OutcomeCovers(b, NotCancelled, o);
    }
  }

  /** Solvency: as long as no cancelled bet sits on a winning outcome, everything the bettors of a
      resolved market can claim fits in its pool, whatever historical fee rates apply to whom, and
      no claim fails. The statistics need not agree with the bets; it is enough that they cover them. */
  lemma PayoutsFitPool(b: Book, ws: seq<Outcome>, feeAt: nat -> int)
    requires RecordOk(b) && Covers(b, NotCancelled)
    requires b.market.Some? && b.market.value.winning == Some(ws) && NoDup(ws) && NoneCancelledOn(b, ws)
    requires FeesOk(feeAt)
    ensures var b' := ResolveBook(b, ws);
            && PaidOut(b', b'.registry, feeAt) <= b.market.value.totalStaked
            && forall u | u in b'.registry :: Payout(b', u, feeAt).Ok?
  {
    var b' := ResolveBook(b, ws);
    var pool := b.market.value.totalStaked;
    ResolveAll(b, ws);
    ResolvedPayable(b, ws);
    PaidOutByOutcome(b', ws, b'.registry, feeAt);
    if |ws| > 0 {
      forall o | o in ws ensures PaidOn(b', b'.registry, o, feeAt) <= pool / |ws| {
        PaidOnBounded(b', ws, o, feeAt);
      }
      EachAtMost(b', b'.registry, ws, feeAt, pool / |ws|);
      DivBounds(pool, |ws|);
    }
    forall u | u in b'.registry ensures Payout(b', u, feeAt).Ok? {
      if b'.bets[u].status == Won && GetOr(b'.stats.outcomeTotals, b'.bets[u].outcome, 0) > 0 {
        PayoutValue(b', ws, u, feeAt);
      }
    }
  }

  /** With one fee rate the payouts and the fee fit in the pool together. */
  lemma PayoutsAndFeeFitPool(b: Book, ws: seq<Outcome>, feeAt: nat -> int, rate: int)
    requires RecordOk(b) && Covers(b, NotCancelled)
    requires b.market.Some? && b.market.value.winning == Some(ws) && NoDup(ws) && |ws| > 0 && NoneCancelledOn(b, ws)
    requires FeesOk(feeAt) && Uniform(feeAt, rate)
    ensures var b' := ResolveBook(b, ws);
            var pool := b.market.value.totalStaked;
            PaidOut(b', b'.registry, feeAt) + pool * rate / BPS <= pool
  {
    var b' := ResolveBook(b, ws);
    var pool := b.market.value.totalStaked;
    ResolveAll(b, ws);
    ResolvedPayable(b, ws);
    PaidOutByOutcome(b', ws, b'.registry, feeAt);
    assert feeAt(0) == rate;
    PerWinnerBounds(pool, rate, |ws|);
    var q := PerWinner(pool, rate, |ws|);
    forall o | o in ws ensures PaidOn(b', b'.registry, o, feeAt) <= q {
      PaidOnUniform(b', ws, o, feeAt, rate);
    }
    EachAtMost(b', b'.registry, ws, feeAt, q);
  }

  /** When every winning outcome has a counted bet, payouts and fee come to at least the pool plus what revived
      bets claim of it, but for one unit per winning bet, less one. */
  lemma PayoutsAtLeast(b: Book, ws: seq<Outcome>, feeAt: nat -> int, rate: int)
    requires BookOk(b) && b.market.Some? && b.market.value.winning == Some(ws) && NoDup(ws) && |ws| > 0
    requires FeesOk(feeAt) && Uniform(feeAt, rate) && AllCounted(b.stats, ws)
    ensures var b' := ResolveBook(b, ws);
            var pool := b.market.value.totalStaked;
            pool + RevivedShares(b, ws, PerWinner(pool, rate, |ws|)) - (Sum(WonBets, b') - 1)
              <= PaidOut(b', b'.registry, feeAt) + pool * rate / BPS
  {
    var b' := ResolveBook(b, ws);
    var pool := b.market.value.totalStaked;
    OrderedIsRecorded(b);
    OrderedIsCovered(b, NotCancelled);
    ResolveAll(b, ws);
    ResolvedPriced(b, ws);
    PaidOutByOutcome(b', ws, b'.registry, feeAt);
    assert feeAt(0) == rate;
    PerWinnerBounds(pool, rate, |ws|);
    var q := PerWinner(pool, rate, |ws|);
    forall o | o in ws
      ensures q + RevivedShare(b, o, q) - (|WonStakes(b', b'.registry, o)| - 1) <= PaidOn(b', b'.registry, o, feeAt)
    {
      WonAmount(b, ws, o);
      PaidOnAtLeast(b', ws, o, feeAt, rate, Sum(CancelledOn(o), b));
    }
    EachAtLeast(b, b', ws, feeAt, q);
  }

  /** So with one fee rate and no cancelled bet on a winning outcome, payouts and fee fit in the pool and,
      when every winning outcome has a counted bet, use it up to at most one unit per winning bet, less one. */
  lemma PayoutsAndFeeFillPool(b: Book, ws: seq<Outcome>, feeAt: nat -> int, rate: int)
    requires BookOk(b) && b.market.Some? && b.market.value.winning == Some(ws) && NoDup(ws) && |ws| > 0
    requires NoneCancelledOn(b, ws) && FeesOk(feeAt) && Uniform(feeAt, rate)
    ensures var b' := ResolveBook(b, ws);
            var pool := b.market.value.totalStaked;
            var paid := PaidOut(b', b'.registry, feeAt);
            && paid + pool * rate / BPS <= pool
            && (AllCounted(b.stats, ws) ==> pool - (paid + pool * rate / BPS) <= Sum(WonBets, b') - 1)
  {
    OrderedIsRecorded(b);
    OrderedIsCovered(b, NotCancelled);
    PayoutsAndFeeFitPool(b, ws, feeAt, rate);
    if AllCounted(b.stats, ws) {
      PayoutsAtLeast(b, ws, feeAt, rate);
      RevivedNothing(b, ws, PerWinner(b.market.value.totalStaked, rate, |ws|));
    }
  }

  /** The hypothesis is needed. When everything at stake is on the winning outcome and no fee is
      taken, the payouts give back every winner's stake, so each revived cancelled bet is paid from
      money that already left the pool: the payouts fit exactly when there is no such bet. */
  lemma RevivedBetsOverdrawPool(b: Book, o: Outcome, feeAt: nat -> int)
    requires BookOk(b) && b.market.Some? && b.market.value.winning == Some([o])
    requires Uniform(feeAt, 0)
    requires AllAtStakeOn(b, o) && b.market.value.totalStaked > 0
    ensures var b' := ResolveBook(b, [o]);
            && PaidOut(b', b'.registry, feeAt) == b.market.value.totalStaked + Sum(CancelledOn(o), b)
            && (PaidOut(b', b'.registry, feeAt) <= b.market.value.totalStaked <==> NoneCancelledOn(b, [o]))
  {
    var b' := ResolveBook(b, [o]);
    ResolveAll(b, [o]);
    PoolOnOne(b, o);
    WonAmount(b, [o], o);
    WonAmountExactIff(b, [o], o);
    assert NoneCancelledOn(b, [o]) <==>
      (forall u | u in b.bets :: b.bets[u].status == Cancelled ==> b.bets[u].outcome != o);
    forall u | u in b'.registry ensures Paid(b', u, feeAt) == WeightAt(WonOn(o), b'.bets, u) {
      var bet := b'.bets[u];
      assert bet == Settle(b.bets[u], [o]);
      if bet.status == Won {
        FullPool(b', u, o, feeAt);
      }
    }
    PaidOutIs(b', b'.registry, o, feeAt);
  }

  lemma PoolOnOne(b: Book, o: Outcome)
    requires BookOk(b) && b.market.Some? && AllAtStakeOn(b, o)
    ensures b.market.value.totalStaked == GetOr(b.stats.outcomeTotals, o, 0) <= U32_MAX * MAX_BET_AMOUNT
  {
    BookBounds(b);
    assert OutcomeOk(b, o);
    TotalSame(OnOutcome(o), Staked, b.bets, b.bets, b.registry);
  }

  /** With no fee, and the whole pool staked on the single winning outcome, a winner gets the stake back. */
  lemma FullPool(b: Book, u: User, o: Outcome, feeAt: nat -> int)
    requires u in b.bets && b.bets[u].status == Won && b.bets[u].outcome == o
    requires b.market.Some? && b.market.value.winning == Some([o]) && Uniform(feeAt, 0)
    requires 0 < b.market.value.totalStaked == GetOr(b.stats.outcomeTotals, o, 0) <= U32_MAX * MAX_BET_AMOUNT
    requires 0 < b.bets[u].amount <= MAX_BET_AMOUNT
    ensures Payout(b, u, feeAt) == Ok(b.bets[u].amount)
  {
    var pool := b.market.value.totalStaked;
    assert feeAt(b.bets[u].timestamp) == 0;
    assert Quot(pool * 0, BPS) == 0;
    assert Quot(pool - 0, 1) == pool;
    BackAgain(b.bets[u].amount, pool);
  }

  /** Every bet that was not cancelled is on `o` and still at stake. */
  ghost predicate AllAtStakeOn(b: Book, o: Outcome) {
    forall u | u in b.bets :: b.bets[u].status != Cancelled ==> AtStake(b.bets[u]) && b.bets[u].outcome == o
  }

  lemma BackAgain(a: int, pool: int)
    requires 0 < a <= MAX_BET_AMOUNT && 0 < pool <= U32_MAX * MAX_BET_AMOUNT
    ensures 0 <= a * pool <= I128_MAX && a * pool / pool == a
  {
    MulMono(a, 0, pool);
    MulMono(pool, a, MAX_BET_AMOUNT);
    DivLe(a * pool, pool, a);
    DivGe(a * pool, pool, a);
  }

  lemma {:induction false} PaidOutIs(b: Book, us: seq<User>, o: Outcome, feeAt: nat -> int)
    requires forall u | u in us :: Paid(b, u, feeAt) == WeightAt(WonOn(o), b.bets, u)
    ensures PaidOut(b, us, feeAt) == Total(WonOn(o), b.bets, us)
  {
    if us == [] {
    } else {
      PaidOutIs(b, us[..|us| - 1], o, feeAt);
    }
  }
}
