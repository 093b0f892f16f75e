/** Over which runs the statistics cover the bets: the Active ones over every run, and all that were not
    cancelled as long as a market is not resolved over a cancelled bet. */
module BetCoverRuns {
  import opened Common
  import opened BetLedger
  import opened BetInvariant
  import opened BetResolution
  import opened BetRecord
  import opened BetCover
  import opened BetBatch
  import opened BetBatchRecord
  import opened BetRuns

  /** A resolution of market `m` finds no cancelled bet there. */
  ghost predicate ResolvesUncancelled(s: Ledger, step: Step, m: MarketId) {
    step.DoResolve? && step.market == m ==> NoneCancelled(BookAt(s.books, m))
  }

  ghost predicate UncancelledRun(s: Ledger, steps: seq<Step>, m: MarketId) {
    steps == [] ||
    (UncancelledRun(s, steps[..|steps| - 1], m)
     && ResolvesUncancelled(Run(s, steps[..|steps| - 1]), steps[|steps| - 1], m))
  }

  lemma SameCovers(b: Book, b': Book, basis: Basis)
    requires Covers(b, basis) && b'.bets == b.bets && b'.registry == b.registry && b'.stats == b.stats
    ensures Covers(b', basis)
  {
    SameSums(b, b');
    forall o ensures OutcomeCovers(b', basis, o) {
      assert OutcomeCovers(b, basis, o);
    }
  }

  lemma {:induction false} StoredCovers(s: Ledger, user: User, rs: seq<BetRequest>, m: MarketId, basis: Basis)
    requires Recorded(s) && Stored(s, user, rs) && Covers(BookAt(s.books, m), basis)
    ensures Covers(BookAt(StoredBooks(s, user, rs), m), basis)
  {
    if rs == [] {
    } else {
      var k := |rs| - 1;
      assert rs == rs[..k] + [rs[k]];
      StoredSnoc(s, user, rs[..k], rs[k]);
      StoredCovers(s, user, rs[..k], m, basis);
      if rs[k].market == m {
        var mid := BookAt(StoredBooks(s, user, rs[..k]), m);
        StoredRecords(s, user, rs[..k], m);
        PlaceCovers(mid, BookAt(s.books, m).market.value, NewBet(s, user, rs[k]), InvalidInput, basis);
      }
    }
  }

  lemma BatchCovers(s: Ledger, user: User, rs: seq<BetRequest>, maxFee: int, key: IdemKey, m: MarketId, basis: Basis)
    requires Recorded(s) && PlaceBets(s, user, rs, maxFee, key).Ok? && Covers(BookAt(s.books, m), basis)
    ensures Covers(BookAt(PlaceBets(s, user, rs, maxFee, key).value.books, m), basis)
  {
    BatchStored(s, user, rs, maxFee, key);
    StoredCovers(s, user, rs, m, basis);
  }

  lemma BetCovers(s: Ledger, user: User, r: BetRequest, maxFee: int, basis: Basis)
    requires Recorded(s) && PlaceBet(s, user, r, maxFee).Ok? && Covers(BookAt(s.books, r.market), basis)
    ensures Covers(BookAt(PlaceBet(s, user, r, maxFee).value.books, r.market), basis)
  {
    var b := BookAt(s.books, r.market);
    PlaceBetShape(s, user, r, maxFee);
    ValidAmount(s, user, r);
    BookRecorded(s, r.market);
    PlaceCovers(b, b.market.value, NewBet(s, user, r), InvalidInput, basis);
  }

  lemma CancelCallCovers(s: Ledger, user: User, m: MarketId, basis: Basis)
    requires Recorded(s) && CancelBetCall(s, user, m).Ok? && Covers(BookAt(s.books, m), basis)
    ensures Covers(BookAt(CancelBetCall(s, user, m).value.books, m), basis)
  {
    CancelShape(s, user, m);
    BookRecorded(s, m);
    CancelCovers(BookAt(s.books, m), user, basis);
  }

  lemma {:induction false} RefundEachCovers(s: Ledger, m: MarketId, us: seq<User>, basis: Basis)
    requires Recorded(s) && RefundEach(s, m, us).Ok? && Covers(BookAt(s.books, m), basis)
    ensures Covers(BookAt(RefundEach(s, m, us).value.books, m), basis)
  {
    if us == [] {
    } else {
      var k := |us| - 1;
      RefundEachCovers(s, m, us[..k], basis);
      RefundEachKeeps(s, m, us[..k]);
      RefundOneCovers(RefundEach(s, m, us[..k]).value, m, us[k], basis);
    }
  }

  lemma RefundOneCovers(s: Ledger, m: MarketId, u: User, basis: Basis)
    requires Recorded(s) && RefundOne(s, m, u).Ok? && Covers(BookAt(s.books, m), basis)
    ensures Covers(BookAt(RefundOne(s, m, u).value.books, m), basis)
  {
    var b := BookAt(s.books, m);
    BookRecorded(s, m);
    RefundShape(s, m, u);
    if u in b.bets && b.bets[u].status == Active {
      RefundCovers(b, u, basis);
    }
  }

  lemma ResolveCallCovers(s: Ledger, m: MarketId, ws: seq<Outcome>, basis: Basis)
    requires Recorded(s) && Covers(BookAt(s.books, m), basis)
    requires basis == NotCancelled ==> NoneCancelled(BookAt(s.books, m))
    ensures Covers(BookAt(ResolveBets(s, m, ws).books, m), basis)
  {
    BookRecorded(s, m);
    ResolveCovers(BookAt(s.books, m), ws, basis);
  }

  lemma MarketWriteCovers(s: Ledger, step: Step, m: MarketId, basis: Basis)
    requires (step.OpenMarket? || step.Declare?) && Call(s, step).Ok? && Covers(BookAt(s.books, m), basis)
    ensures Covers(BookAt(After(s, step).books, m), basis)
  {
    SameCovers(BookAt(s.books, m), BookAt(After(s, step).books, m), basis);
  }

  lemma BetStepCovers(s: Ledger, step: Step, m: MarketId, basis: Basis)
    requires Recorded(s) && Covers(BookAt(s.books, m), basis) && Call(s, step).Ok?
    requires step.DoPlace? || step.DoCancel?
    ensures Covers(BookAt(After(s, step).books, m), basis)
  {
    match step
    case DoPlace(u, r, maxFee) =>
      if r.market == m {
        BetCovers(s, u, r, maxFee, basis);
      }
    case DoCancel(u, x) =>
      CancelShape(s, u, x);
      if x == m {
        CancelCallCovers(s, u, m, basis);
      }
  }

  lemma PoolStepCovers(s: Ledger, step: Step, m: MarketId, basis: Basis)
    requires Recorded(s) && Covers(BookAt(s.books, m), basis) && Call(s, step).Ok?
    requires step.DoRefund? || step.DoResolve?
    requires basis == NotCancelled ==> ResolvesUncancelled(s, step, m)
    ensures Covers(BookAt(After(s, step).books, m), basis)
  {
    match step
    case DoRefund(x) =>
      if x == m {
        RefundEachCovers(s, m, BookAt(s.books, m).registry, basis);
      } else {
        RefundElsewhere(s, x, BookAt(s.books, x).registry, m);
      }
    case DoResolve(x, ws) =>
      if x == m {
        ResolveCallCovers(s, m, ws, basis);
      }
  }

  /** Any call keeps the Active bets covered; only a resolution over a cancelled bet can uncover the others. */
  lemma StepCovers(s: Ledger, step: Step, m: MarketId, basis: Basis)
    requires Recorded(s) && Covers(BookAt(s.books, m), basis)
    requires basis == NotCancelled ==> ResolvesUncancelled(s, step, m)
    ensures Covers(BookAt(After(s, step).books, m), basis)
  {
    if Call(s, step).Ok? {
      match step
      case DoPlace(u, r, maxFee) => BetStepCovers(s, step, m, basis);
      case DoPlaceBatch(u, rs, maxFee, key) => BatchCovers(s, u, rs, maxFee, key, m, basis);
      case DoCancel(u, x) => BetStepCovers(s, step, m, basis);
      case DoRefund(x) => PoolStepCovers(s, step, m, basis);
      case DoResolve(x, ws) => PoolStepCovers(s, step, m, basis);
      case OpenMarket(x, os, e, d, p) => MarketWriteCovers(s, step, m, basis);
      case Declare(x, st, w) => MarketWriteCovers(s, step, m, basis);
      case _ =>
    }
  }

  /** The same over whole runs. */
  lemma {:induction false} RunCovers(s: Ledger, steps: seq<Step>, m: MarketId, basis: Basis)
    requires Recorded(s) && Covers(BookAt(s.books, m), basis)
    requires basis == NotCancelled ==> UncancelledRun(s, steps, m)
    ensures Covers(BookAt(Run(s, steps).books, m), basis)
  {
    if steps == [] {
    } else {
      var k := |steps| - 1;
      RunCovers(s, steps[..k], m, basis);
      RunRecords(s, steps[..k]);
      StepCovers(Run(s, steps[..k]), steps[k], m, basis);
    }
  }

  lemma FreshCovers(s: Ledger, m: MarketId, basis: Basis)
    requires Fresh(s)
    ensures Recorded(s) && Covers(BookAt(s.books, m), basis)
  {
    forall o ensures OutcomeCovers(NO_BOOK, basis, o) {
    }
  }

  /** In every state reachable from deployment, by whatever calls, cancelling or refunding an Active bet takes
      away only what is there: no subtraction saturates. */
  lemma LeavesExactly(s: Ledger, steps: seq<Step>, m: MarketId, u: User)
    requires Fresh(s)
    requires var b := BookAt(Run(s, steps).books, m); u in b.bets && b.bets[u].status == Active
    ensures var b := BookAt(Run(s, steps).books, m);
            b.market.Some? && LeaveIsExactIn(b, b.market.value, b.bets[u])
  {
    FreshCovers(s, m, Live);
    RunRecords(s, steps);
    RunCovers(s, steps, m, Live);
    BookRecorded(Run(s, steps), m);
    CoveredLeaveIsExact(BookAt(Run(s, steps).books, m), u);
  }
}
