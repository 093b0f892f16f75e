/** Resolving a market: what the registry walk does to each bet, when it may be run,
    and why its order and repetition do not matter. */
module BetResolution {
  import opened Common
  import opened BetLedger
  import opened BetInvariant

  function Settle(bet: Bet, ws: seq<Outcome>): Bet {
    bet.(status := if bet.outcome in ws then Won else Lost)
  }

  /** The bets with those of the listed users settled. */
  function Settled(bets: map<User, Bet>, us: seq<User>, ws: seq<Outcome>): map<User, Bet> {
    map u | u in bets :: if u in us then Settle(bets[u], ws) else bets[u]
  }

  lemma SettledSnoc(bets: map<User, Bet>, us: seq<User>, u: User, ws: seq<Outcome>)
    requires u in bets && bets[u].user == u
    ensures Settled(bets, us + [u], ws) == Settled(bets, us, ws)[u := Settle(Settled(bets, us, ws)[u], ws)]
  {
  }

  /** The walk over any list of registered users settles exactly the bets of the listed users and
      touches nothing else, so neither the order of the list nor repetitions in it matter. */
  lemma {:induction false} ResolvePointwise(b: Book, us: seq<User>, ws: seq<Outcome>)
    requires RegistryOk(b)
    requires forall u | u in us :: u in b.registry
    ensures ResolveEach(b, us, ws) == b.(bets := Settled(b.bets, us, ws))
  {
    if us == [] {
      assert Settled(b.bets, us, ws) == b.bets;
    } else {
      var k := |us| - 1;
      ResolvePointwise(b, us[..k], ws);
      assert us[k] in b.registry;
      assert us == us[..k] + [us[k]];
      SettledSnoc(b.bets, us[..k], us[k], ws);
    }
  }

  lemma ResolveAll(b: Book, ws: seq<Outcome>)
    requires RegistryOk(b)
    ensures ResolveBook(b, ws) == b.(bets := map u | u in b.bets :: Settle(b.bets[u], ws))
    ensures RegistryOk(ResolveBook(b, ws))
  {
    ResolvePointwise(b, b.registry, ws);
    assert forall u | u in b.bets :: u in b.registry;
  }

  /** Resolving again with the same outcomes changes nothing. */
  lemma ResolveTwice(b: Book, ws: seq<Outcome>)
    requires RegistryOk(b)
    ensures ResolveBook(ResolveBook(b, ws), ws) == ResolveBook(b, ws)
  {
    ResolveAll(b, ws);
    ResolveAll(ResolveBook(b, ws), ws);
    assert ResolveBook(ResolveBook(b, ws), ws).bets == ResolveBook(b, ws).bets;
  }

  ghost predicate AllAtStake(b: Book) {
    forall u | u in b.bets :: AtStake(b.bets[u])
  }

  /** The walk has no status test, so it revives cancelled and refunded bets. It keeps a book in
      order exactly when no registered bet has been cancelled or refunded. */
  lemma ResolveKeepsBookIff(b: Book, ws: seq<Outcome>)
    requires BookOk(b)
    ensures BookOk(ResolveBook(b, ws)) <==> AllAtStake(b)
  {
    ResolveAll(b, ws);
    if AllAtStake(b) {
      ResolveKeepsBook(b, ws);
    } else {
      var u :| u in b.bets && !AtStake(b.bets[u]);
      assert VoterOk(b, b.market.value, u);
      assert !VoterOk(ResolveBook(b, ws), b.market.value, u);
    }
  }

  lemma ResolveKeepsBook(b: Book, ws: seq<Outcome>)
    requires BookOk(b) && AllAtStake(b)
    ensures BookOk(ResolveBook(b, ws))
  {
    var b' := ResolveBook(b, ws);
    ResolveAll(b, ws);
    forall v: View | v.Bettors? || v.Locked? || v.Staked? || v.OnOutcome? ensures Sum(v, b') == Sum(v, b) {
      TotalSame(v, v, b.bets, b'.bets, b.registry);
    }
    forall o ensures OutcomeOk(b', o) {
      assert OutcomeOk(b, o);
      assert Sum(OnOutcome(o), b') == Sum(OnOutcome(o), b);
    }
    if b.market.Some? {
      forall u ensures VoterOk(b', b'.market.value, u) {
        assert VoterOk(b, b.market.value, u);
      }
      assert Sum(Staked, b') == Sum(Staked, b);
    }
  }

  /** What is won on a winning outcome after the walk: the outcome total of the statistics, plus
      whatever cancelled bets on that outcome were revived. */
  lemma WonAmount(b: Book, ws: seq<Outcome>, o: Outcome)
    requires BookOk(b) && o in ws
    ensures Sum(WonOn(o), ResolveBook(b, ws)) == GetOr(b.stats.outcomeTotals, o, 0) + Sum(CancelledOn(o), b)
    ensures Sum(CancelledOn(o), b) >= 0
  {
    ResolveAll(b, ws);
    assert OutcomeOk(b, o);
    WonSums(b, ResolveBook(b, ws), ws, o);
    WeightBelowTotal(CancelledOn(o), b.bets, b.registry, 0);
  }

  lemma WonSums(b: Book, b': Book, ws: seq<Outcome>, o: Outcome)
    requires o in ws && b'.registry == b.registry && b'.bets == map u | u in b.bets :: Settle(b.bets[u], ws)
    ensures Sum(WonOn(o), b') == Sum(OnOutcome(o), b) + Sum(CancelledOn(o), b)
  {
    WonSplit(b.bets, b'.bets, b.registry, ws, o);
  }

  lemma {:induction false} WonSplit(bets: map<User, Bet>, bets': map<User, Bet>, us: seq<User>, ws: seq<Outcome>,
      o: Outcome)
    requires bets' == map u | u in bets :: Settle(bets[u], ws)
    requires o in ws
    ensures Total(WonOn(o), bets', us) == Total(OnOutcome(o), bets, us) + Total(CancelledOn(o), bets, us)
  {
    if us == [] {
    } else {
      WonSplit(bets, bets', us[..|us| - 1], ws, o);
    }
  }

  /** So the divisor of the payout equals the sum of the stakes it is shared among exactly when no
      registered bet on that outcome was cancelled. */
  lemma WonAmountExactIff(b: Book, ws: seq<Outcome>, o: Outcome)
    requires BookOk(b) && o in ws
    ensures Sum(WonOn(o), ResolveBook(b, ws)) == GetOr(b.stats.outcomeTotals, o, 0)
            <==> forall u | u in b.bets :: b.bets[u].status == Cancelled ==> b.bets[u].outcome != o
  {
    WonAmount(b, ws, o);
    if forall u | u in b.bets :: b.bets[u].status == Cancelled ==> b.bets[u].outcome != o {
      TotalZero(CancelledOn(o), b.bets, b.registry);
    } else {
      var u :| u in b.bets && b.bets[u].status == Cancelled && b.bets[u].outcome == o;
      assert u in b.registry;
      WeightBelowTotal(CancelledOn(o), b.bets, b.registry, u);
    }
  }
}
