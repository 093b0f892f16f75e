/** What a batch does to the market records, repeated markets included: the last entry for a market
    replaces the earlier ones in bet and pool, while the user has paid for all of them. */
module BetBatchRecord {
  import opened Common
  import opened BetLedger
  import opened BetInvariant
  import opened BetBatch
  import opened BetRecord

  /** The amount of the last entry for market `m`, the only one its record keeps. */
  function Kept(rs: seq<BetRequest>, m: MarketId): int {
    if rs == [] then 0
    else if rs[|rs| - 1].market == m then rs[|rs| - 1].amount
    else Kept(rs[..|rs| - 1], m)
  }

  /** The amounts of all entries that a later entry for the same market replaces. */
  function Overpaid(rs: seq<BetRequest>): int {
    if rs == [] then 0
    else Overpaid(rs[..|rs| - 1]) + Kept(rs[..|rs| - 1], rs[|rs| - 1].market)
  }

  ghost predicate Positive(rs: seq<BetRequest>) {
    forall r | r in rs :: r.amount > 0
  }

  lemma {:induction false} KeptSign(rs: seq<BetRequest>, m: MarketId)
    requires Positive(rs)
    ensures Kept(rs, m) >= 0
    ensures Kept(rs, m) > 0 <==> Times(rs, m) > 0
  {
    if rs == [] {
    } else {
      var k := |rs| - 1;
      assert rs[k] in rs && forall r | r in rs[..k] :: r in rs;
      KeptSign(rs[..k], m);
    }
  }

  /** Nothing is lost exactly when no market is named twice. */
  lemma {:induction false} OverpaidIff(rs: seq<BetRequest>)
    requires Positive(rs)
    ensures Overpaid(rs) >= 0
    ensures Overpaid(rs) == 0 <==> Distinct(rs)
  {
    if rs == [] {
    } else {
      var k := |rs| - 1;
      var m := rs[k].market;
      assert forall r | r in rs[..k] :: r in rs;
      OverpaidIff(rs[..k]);
      KeptSign(rs[..k], m);
      NamedIff(rs[..k], m);
      assert rs == rs[..k] + [rs[k]];
      DistinctSnoc(rs[..k], rs[k]);
    }
  }

  lemma {:induction false} NamedIff(rs: seq<BetRequest>, m: MarketId)
    ensures Times(rs, m) > 0 <==> exists r :: r in rs && r.market == m
  {
    if rs == [] {
    } else {
      var k := |rs| - 1;
      NamedIff(rs[..k], m);
      assert rs == rs[..k] + [rs[k]];
      assert rs[k] in rs;
    }
  }

  lemma DistinctSnoc(rs: seq<BetRequest>, r: BetRequest)
    ensures Distinct(rs + [r]) <==> Distinct(rs) && !(exists q :: q in rs && q.market == r.market)
  {
    var all := rs + [r];
    if Distinct(all) {
      forall i, j | 0 <= i < j < |rs| ensures rs[i].market != rs[j].market {
        assert all[i].market != all[j].market;
      }
      forall q | q in rs ensures q.market != r.market {
        var i :| 0 <= i < |rs| && rs[i] == q;
        assert all[i].market != all[|rs|].market;
      }
    }
  }

  // ----- one market of a stored batch -----

  /** The book of one market after the entries `rs` were stored. */
  ghost predicate StoredBook(s: Ledger, user: User, rs: seq<BetRequest>, m: MarketId, b: Book) {
    var before := BookAt(s.books, m);
    && RecordOk(b) && Moves(before, b, user, Kept(rs, m))
    && (if Times(rs, m) > 0 then before.market.Some? && Enters(b, before.market.value, user) else b == before)
  }

  lemma {:induction false} StoredRecords(s: Ledger, user: User, rs: seq<BetRequest>, m: MarketId)
    requires Recorded(s) && Stored(s, user, rs)
    ensures StoredBook(s, user, rs, m, BookAt(StoredBooks(s, user, rs), m))
  {
    if rs == [] {
      BookRecorded(s, m);
    } else {
      var k := |rs| - 1;
      assert rs == rs[..k] + [rs[k]];
      StoredSnoc(s, user, rs[..k], rs[k]);
      StoredRecords(s, user, rs[..k], m);
      if rs[k].market == m {
        StoredNext(s, user, rs[..k], rs[k], BookAt(StoredBooks(s, user, rs[..k]), m));
      }
    }
  }

  lemma StoredNext(s: Ledger, user: User, rs: seq<BetRequest>, r: BetRequest, b: Book)
    requires Recorded(s) && Valid(s, user, r) && StoredBook(s, user, rs, r.market, b)
    requires PlaceInBook(b, BookAt(s.books, r.market).market.value, NewBet(s, user, r), InvalidInput).Ok?
    ensures var b' := PlaceInBook(b, BookAt(s.books, r.market).market.value, NewBet(s, user, r), InvalidInput).value;
            && RecordOk(b') && Enters(b', BookAt(s.books, r.market).market.value, user)
            && Moves(BookAt(s.books, r.market), b', user, r.amount)
  {
    var before := BookAt(s.books, r.market);
    BookRecorded(s, r.market);
    ValidAmount(s, user, r);
    FreeUserEnters(before, user);
    PlaceRecords(b, before.market.value, NewBet(s, user, r), InvalidInput);
  }

  /** A market named at most once fares as with that single bet. */
  lemma {:induction false} StoredOnce(s: Ledger, user: User, rs: seq<BetRequest>, m: MarketId)
    requires Stored(s, user, rs) && Times(rs, m) <= 1
    ensures var b := BookAt(StoredBooks(s, user, rs), m);
            if Times(rs, m) == 0 then b == BookAt(s.books, m)
            else exists r :: r in rs && r.market == m && Record(s, s.books, user, r) == Ok(b)
  {
    if rs == [] {
    } else {
      var k := |rs| - 1;
      assert rs == rs[..k] + [rs[k]];
      StoredSnoc(s, user, rs[..k], rs[k]);
      StoredOnce(s, user, rs[..k], m);
      if rs[k].market == m {
        assert rs[k] in rs && Record(s, s.books, user, rs[k]) == Ok(BookAt(StoredBooks(s, user, rs), m));
      }
    }
  }

  /** So a batch keeps a market's book in order exactly when it names the market at most once; otherwise
      the statistics count bets that do not exist. */
  lemma BatchKeepsBookIff(s: Ledger, user: User, rs: seq<BetRequest>, m: MarketId)
    requires LimitsOk(s) && Stored(s, user, rs) && BookOk(BookAt(s.books, m))
    ensures BookOk(BookAt(StoredBooks(s, user, rs), m)) <==> Times(rs, m) <= 1
  {
    if Times(rs, m) == 1 {
      StoredOnce(s, user, rs, m);
      var r :| r in rs && r.market == m && Record(s, s.books, user, r) == Ok(BookAt(StoredBooks(s, user, rs), m));
      ValidAmount(s, user, r);
      PlaceKeepsBook(BookAt(s.books, m), NewBet(s, user, r), InvalidInput);
    } else if Times(rs, m) == 0 {
      StoredOnce(s, user, rs, m);
    } else {
      NamedIff(rs, m);
      var r :| r in rs && r.market == m;
      assert Valid(s, user, r);
      StoreBatchCounts(s.books, user, rs, SnapshotOf(s, rs), s.now, m);
    }
  }

  lemma {:induction false} DistinctIff(rs: seq<BetRequest>)
    ensures Distinct(rs) <==> forall m :: Times(rs, m) <= 1
  {
    if rs == [] {
    } else {
      var k := |rs| - 1;
      DistinctIff(rs[..k]);
      assert rs == rs[..k] + [rs[k]];
      DistinctSnoc(rs[..k], rs[k]);
      NamedIff(rs[..k], rs[k].market);
      if Distinct(rs) {
        forall m ensures Times(rs, m) <= 1 {
          assert Times(rs[..k], m) <= 1;
        }
      } else if Distinct(rs[..k]) {
        assert Times(rs, rs[k].market) > 1;
      } else {
        var m :| Times(rs[..k], m) > 1;
        assert Times(rs, m) > 1;
      }
    }
  }
}
