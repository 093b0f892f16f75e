/** The running statistics of the batch processor: counters, and an average that is re-rounded down
    after every batch. */
module BatchStatistics {
  import opened Common

  datatype BatchResult = BatchResult(successful: nat, failed: nat, total: nat, executionTime: nat)

  datatype Statistics = Statistics(
    batches: nat, operations: nat, successful: nat, failed: nat, averageSize: nat, averageTime: nat)

  const NONE := Statistics(0, 0, 0, 0, 0, 0)

  /** Whole part of a quotient of naturals. */
  function Floor(x: nat, n: nat): (q: nat)
    requires n > 0
    ensures q * n <= x < q * n + n
  {
    DivGe(x, n, 0);
    DivBounds(x, n);
    x / n
  }

  /** What earlier batches took together, as far as the stored average remembers it. */
  function Remembered(average: nat, batches: nat): nat {
    MulMono(average, 0, batches);
    average * batches
  }

  function Update(s: Statistics, r: BatchResult): Statistics {
    var n := s.batches + 1;
    Statistics(n, s.operations + r.total, s.successful + r.successful, s.failed + r.failed,
               Floor(s.operations + r.total, n), Floor(Remembered(s.averageTime, n - 1) + r.executionTime, n))
  }

  function UpdateAll(rs: seq<BatchResult>): Statistics {
    if rs == [] then NONE else Update(UpdateAll(rs[..|rs| - 1]), rs[|rs| - 1])
  }

  /** One item of a batch: it succeeds, or fails with an error code. */
  function Successes(items: seq<Option<nat>>): nat {
    if items == [] then 0 else Successes(items[..|items| - 1]) + (if items[|items| - 1].None? then 1 else 0)
  }

  /** The errors of the failed items, with their positions. */
  function Failures(items: seq<Option<nat>>): seq<(nat, nat)> {
    if items == [] then []
    else
      var k := |items| - 1;
      var before := Failures(items[..k]);
      if items[k].Some? then before + [(k, items[k].value)] else before
  }

  /** Every item is counted once, and the errors are exactly those of the failed items, each at its position, in
      the order of the items. */
  lemma {:induction false} FailuresAre(items: seq<Option<nat>>)
    ensures Successes(items) + |Failures(items)| == |items|
    ensures forall i: nat, code: nat :: (i, code) in Failures(items) <==> i < |items| && items[i] == Some(code)
    ensures forall j, k | 0 <= j < k < |Failures(items)| :: Failures(items)[j].0 < Failures(items)[k].0
  {
    if items == [] {
    } else {
      var k := |items| - 1;
      FailuresAre(items[..k]);
      forall j | 0 <= j < |Failures(items[..k])| ensures Failures(items[..k])[j].0 < k {
        var e := Failures(items[..k])[j];
        assert e in Failures(items[..k]) && e == (e.0, e.1);
      }
      FailuresSnoc(items[..k], items[k]);
      assert items == items[..k] + [items[k]];
    }
  }

  lemma FailuresSnoc(items: seq<Option<nat>>, last: Option<nat>)
    ensures Failures(items + [last]) == Failures(items) + (if last.Some? then [(|items|, last.value)] else [])
    ensures Successes(items + [last]) == Successes(items) + (if last.None? then 1 else 0)
  {
    assert (items + [last])[..|items|] == items;
  }

  /** The batch loop over items whose individual results are given: every item is counted once, as a
      success or as a failure, and the errors name the failed positions in order. A batch over the limit
      is refused. */
  method ProcessBatch(items: seq<Option<nat>>, limit: nat, started: nat, ended: nat)
    returns (outcome: Result<BatchResult>, errors: seq<(nat, nat)>)
    requires started <= ended
    ensures outcome.Err? <==> |items| > limit
    ensures outcome.Ok? ==>
              && outcome.value == BatchResult(Successes(items), |Failures(items)|, |items|, ended - started)
              && outcome.value.successful + outcome.value.failed == outcome.value.total
              && errors == Failures(items)
  {
    errors := [];
    if |items| > limit {
      return Err(InvalidInput), errors;
    }
    var successful, failed := 0, 0;
    var i := 0;
    while i < |items|
      invariant 0 <= i <= |items|
      invariant successful == Successes(items[..i]) && failed == |errors| && errors == Failures(items[..i])
      invariant successful + failed == i
    {
      assert items[..i + 1][..i] == items[..i];
      match items[i] {
        case None =>
          successful := successful + 1;
        case Some(code) =>
          failed := failed + 1;
          errors := errors + [(i, code)];
      }
      i := i + 1;
    }
    assert items[..i] == items;
    return Ok(BatchResult(successful, failed, |items|, ended - started)), errors;
  }

  /** One batch's update, without division: both averages are whole parts, the first of the true mean size, the
      second of the mean that the stored average remembers. */
  lemma UpdateRounds(s: Statistics, r: BatchResult)
    ensures var t, n := Update(s, r), s.batches + 1;
            && t.batches == n && t.operations == s.operations + r.total
            && t.successful == s.successful + r.successful && t.failed == s.failed + r.failed
            && t.averageSize * n <= t.operations < t.averageSize * n + n
            && t.averageTime * n <= s.averageTime * s.batches + r.executionTime < t.averageTime * n + n
  {
  }

  function TimeSum(rs: seq<BatchResult>): nat {
    if rs == [] then 0 else TimeSum(rs[..|rs| - 1]) + rs[|rs| - 1].executionTime
  }

  function TotalSum(rs: seq<BatchResult>): nat {
    if rs == [] then 0 else TotalSum(rs[..|rs| - 1]) + rs[|rs| - 1].total
  }

  /** The counters are exact: operations are the batches' totals, and successes plus failures when every
      batch's are; the average size is the true one rounded down. */
  lemma {:induction false} CountersExact(rs: seq<BatchResult>)
    requires forall r | r in rs :: r.successful + r.failed == r.total
    ensures var s := UpdateAll(rs);
            && s.batches == |rs|
            && s.successful + s.failed == s.operations == TotalSum(rs)
            && (rs != [] ==> s.averageSize == TotalSum(rs) / |rs|)
  {
    if rs == [] {
    } else {
      CountersExact(rs[..|rs| - 1]);
    }
  }

  lemma {:induction false} BatchesCounted(rs: seq<BatchResult>)
    ensures UpdateAll(rs).batches == |rs|
  {
    if rs == [] {
    } else {
      BatchesCounted(rs[..|rs| - 1]);
    }
  }

  /** One re-rounding: the new average loses less than one unit per batch so far. */
  lemma DriftStep(n: int, avg0: int, sum0: int, t: int, avg: int)
    requires n > 0 && avg == (avg0 * (n - 1) + t) / n
    requires (n - 1) * avg0 <= sum0 && 2 * (sum0 - (n - 1) * avg0) <= (n - 1) * (n - 2)
    ensures n * avg <= sum0 + t && 2 * (sum0 + t - n * avg) <= n * (n - 1)
  {
    assert avg0 * (n - 1) == (n - 1) * avg0;
    DivBounds(avg0 * (n - 1) + t, n);
    Triangle(n);
  }

  lemma Triangle(n: int)
    ensures n * (n - 1) == (n - 1) * (n - 2) + 2 * (n - 1)
  {
    Distribute(n - 1, n - 2, 2);
  }

  lemma RangeStep(n: int, avg0: int, t: int, avg: int, lo: int, hi: int)
    requires n > 0 && avg == (avg0 * (n - 1) + t) / n
    requires n > 1 ==> lo <= avg0 <= hi
    requires lo <= t <= hi
    ensures lo <= avg <= hi
  {
    if n > 1 {
      MulMono(n - 1, lo, avg0);
      MulMono(n - 1, avg0, hi);
      assert avg0 * (n - 1) == (n - 1) * avg0;
      Distribute(lo, n - 1, 1);
      Distribute(hi, n - 1, 1);
      DivGe(avg0 * (n - 1) + t, n, lo);
      DivLe(avg0 * (n - 1) + t, n, hi);
    }
  }

  /** `n` times the average is at most the true total of `n` batches and behind it by at most
      `n * (n - 1) / 2`: the average is at most the true mean, and below it by at most `(n - 1) / 2`. */
  ghost predicate NearMean(average: nat, rs: seq<BatchResult>) {
    var n := |rs|;
    n * average <= TimeSum(rs) && 2 * (TimeSum(rs) - n * average) <= n * (n - 1)
  }

  /** After any batches the stored average execution time is that close to the true mean. */
  lemma {:induction false} AverageDrift(rs: seq<BatchResult>)
    ensures NearMean(UpdateAll(rs).averageTime, rs)
  {
    if rs == [] {
    } else {
      var n := |rs|;
      var before := UpdateAll(rs[..n - 1]);
      AverageDrift(rs[..n - 1]);
      BatchesCounted(rs[..n - 1]);
      DriftStep(n, before.averageTime, TimeSum(rs[..n - 1]), rs[n - 1].executionTime, UpdateAll(rs).averageTime);
    }
  }

  /** And it never leaves the range of the samples. */
  lemma {:induction false} AverageInRange(rs: seq<BatchResult>, lo: nat, hi: nat)
    requires rs != [] && forall r | r in rs :: lo <= r.executionTime <= hi
    ensures lo <= UpdateAll(rs).averageTime <= hi
  {
    var n := |rs|;
    var before := UpdateAll(rs[..n - 1]);
    if n > 1 {
      AverageInRange(rs[..n - 1], lo, hi);
    }
    BatchesCounted(rs[..n - 1]);
    RangeStep(n, before.averageTime, rs[n - 1].executionTime, UpdateAll(rs).averageTime, lo, hi);
  }

  class BatchProcessor {
    const limit: nat
    var stats: Statistics
    ghost var done: seq<BatchResult>   // the results of all batches so far

    constructor (limit: nat)
      ensures this.limit == limit && Valid() && done == []
    {
      this.limit, this.stats, this.done := limit, NONE, [];
    }

    /** The statistics describe exactly the batches processed so far. */
    ghost predicate Valid()
      reads this
    {
      && stats == UpdateAll(done)
      && forall r | r in done :: r.successful + r.failed == r.total
    }

    /** A batch call: processes the items, then folds the result into the statistics. */
    method Batch(items: seq<Option<nat>>, started: nat, ended: nat)
      returns (outcome: Result<BatchResult>, errors: seq<(nat, nat)>)
      requires Valid() && started <= ended
      modifies this
      ensures Valid() && (outcome.Err? <==> |items| > limit)
      ensures outcome.Ok? ==> errors == Failures(items) && outcome.value.total == |items|
      ensures done == if outcome.Ok? then old(done) + [outcome.value] else old(done)
    {
      outcome, errors := ProcessBatch(items, limit, started, ended);
      if outcome.Ok? {
        UpdateBatchStatistics(outcome.value);
      }
    }

    /** After any batch the counters are exact, and the stored average is close to the true mean. */
    method UpdateBatchStatistics(r: BatchResult)
      requires Valid() && r.successful + r.failed == r.total
      modifies this
      ensures Valid() && done == old(done) + [r]
      ensures stats.batches == |done| && stats.operations == TotalSum(done) == stats.successful + stats.failed
      ensures NearMean(stats.averageTime, done)
    {
      Fold(r);
      done := done + [r];
      assert done[..|done| - 1] == old(done);
      CountersExact(done);
      AverageDrift(done);
    }

    /** The field updates themselves. */
    method Fold(r: BatchResult)
      modifies this`stats
      ensures stats == Update(old(stats), r)
    {
      var s := stats;
      s := s.(batches := s.batches + 1);
      s := s.(operations := s.operations + r.total);
      s := s.(successful := s.successful + r.successful);
      s := s.(failed := s.failed + r.failed);
      s := s.(averageSize := Floor(s.operations, s.batches));
      s := s.(averageTime := Floor(Remembered(s.averageTime, s.batches - 1) + r.executionTime, s.batches));
      stats := s;
    }
  }
}
