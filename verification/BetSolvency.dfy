/** The whole-contract consequences of the run invariant: what a resolved market pays is covered beside
    everything else the contract owes, and a used batch key stays used. */
module BetSolvency {
  import opened Common
  import opened BetLedger
  import opened BetInvariant
  import opened BetResolution
  import opened BetRecord
  import opened BetCover
  import opened BetPayout
  import opened BetRuns
  import opened BetCoverRuns
  import opened BetGuarantees

  /** From deployment on, after any run in which one market was not resolved over a cancelled bet (batches
      may have named it twice, and anything may have happened to the others), settling that market once
      declared, with none of its cancelled bets on a winning outcome, makes payouts that fit in the vault
      together with every internal balance and the pools of all other markets, at any historical fee rates,
      and no claim on it fails. */
  lemma RunPayoutsAreCovered(s: Ledger, steps: seq<Step>, m: MarketId, ws: seq<Outcome>, feeAt: nat -> int,
                             ms: seq<MarketId>, us: seq<User>)
    requires Fresh(s) && UncancelledRun(s, steps, m) && Roster(Run(s, steps), ms, us)
    requires var b := BookAt(Run(s, steps).books, m);
             b.market.Some? && b.market.value.winning == Some(ws) && NoDup(ws) && NoneCancelledOn(b, ws)
    requires FeesOk(feeAt)
    ensures var t := Run(s, steps);
            var b' := BookAt(ResolveBets(t, m, ws).books, m);
            && PaidOut(b', b'.registry, feeAt) <= Pool(BookAt(t.books, m))
            && PaidOut(b', b'.registry, feeAt)
               + SumUsers(t.balances, us) + SumMarkets(WholePool, t.books, Without(ms, m))
               <= ResolveBets(t, m, ws).vault
            && forall u | u in b'.registry :: Payout(b', u, feeAt).Ok?
  {
    var t := Run(s, steps);
    FreshIsFunded(s);
    RunStaysFunded(s, steps);
    FreshCovers(s, m, NotCancelled);
    RunCovers(s, steps, m, NotCancelled);
    FundedPayoutsAreCovered(t, m, ws, feeAt, ms, us);
  }

  /** The same from any funded state in which this market's statistics cover its bets. */
  lemma FundedPayoutsAreCovered(t: Ledger, m: MarketId, ws: seq<Outcome>, feeAt: nat -> int,
                                ms: seq<MarketId>, us: seq<User>)
    requires Funded(t) && Roster(t, ms, us) && Covers(BookAt(t.books, m), NotCancelled) && FeesOk(feeAt)
    requires var b := BookAt(t.books, m);
             b.market.Some? && b.market.value.winning == Some(ws) && NoDup(ws) && NoneCancelledOn(b, ws)
    ensures var b' := BookAt(ResolveBets(t, m, ws).books, m);
            && PaidOut(b', b'.registry, feeAt) <= Pool(BookAt(t.books, m))
            && PaidOut(b', b'.registry, feeAt)
               + SumUsers(t.balances, us) + SumMarkets(WholePool, t.books, Without(ms, m))
               <= ResolveBets(t, m, ws).vault
            && forall u | u in b'.registry :: Payout(b', u, feeAt).Ok?
  {
    var b := BookAt(t.books, m);
    BookRecorded(t, m);
    PayoutsFitPool(b, ws, feeAt);
    assert Float(t, ms, us) >= 0;
    assert m in ms;
    SplitMarket(t.books, ms, m);
    assert BookAt(ResolveBets(t, m, ws).books, m) == ResolveBook(b, ws);
  }

  function Without(ms: seq<MarketId>, m: MarketId): seq<MarketId> {
    if ms == [] then []
    else if ms[|ms| - 1] == m then Without(ms[..|ms| - 1], m)
    else Without(ms[..|ms| - 1], m) + [ms[|ms| - 1]]
  }

  lemma {:induction false} SplitMarket(books: map<MarketId, Book>, ms: seq<MarketId>, m: MarketId)
    requires NoDup(ms)
    ensures SumMarkets(WholePool, books, ms) ==
            SumMarkets(WholePool, books, Without(ms, m)) + (if m in ms then Pool(BookAt(books, m)) else 0)
  {
    if ms == [] {
    } else {
      var k := |ms| - 1;
      SplitMarket(books, ms[..k], m);
      assert ms == ms[..k] + [ms[k]];
    }
  }

  // ----- idempotency keys -----

  lemma {:induction false} RefundKeepsKeys(s: Ledger, m: MarketId, us: seq<User>)
    requires RefundEach(s, m, us).Ok?
    ensures RefundEach(s, m, us).value.consumed == s.consumed
  {
    if us == [] {
    } else {
      RefundKeepsKeys(s, m, us[..|us| - 1]);
    }
  }

  lemma KeysOnlyGrow(s: Ledger, step: Step)
    ensures s.consumed <= After(s, step).consumed
  {
    if step.DoRefund? && Call(s, step).Ok? {
      RefundKeepsKeys(s, step.market, BookAt(s.books, step.market).registry);
    }
  }

  lemma {:induction false} KeyStaysUsed(s: Ledger, steps: seq<Step>, user: User, key: IdemKey)
    requires (user, key) in s.consumed
    ensures (user, key) in Run(s, steps).consumed
  {
    if steps == [] {
    } else {
      KeyStaysUsed(s, steps[..|steps| - 1], user, key);
      KeysOnlyGrow(Run(s, steps[..|steps| - 1]), steps[|steps| - 1]);
    }
  }

  /** After a successful batch, whatever happens in between, no batch of that user under the same key
      goes through again, with the same or other bets: it is an error and leaves the ledger as it was. */
  lemma ReplayRefused(s: Ledger, user: User, rs: seq<BetRequest>, maxFee: int, key: IdemKey,
                      steps: seq<Step>, rs': seq<BetRequest>, maxFee': int)
    requires PlaceBets(s, user, rs, maxFee, key).Ok?
    ensures var t := Run(PlaceBets(s, user, rs, maxFee, key).value, steps);
            && PlaceBets(t, user, rs', maxFee', key).Err?
            && After(t, DoPlaceBatch(user, rs', maxFee', key)) == t
  {
    KeyStaysUsed(PlaceBets(s, user, rs, maxFee, key).value, steps, user, key);
  }
}
