/** Shared vocabulary: optional and fallible values, machine-integer limits, and facts about
    duplicate-free lists and floored division that several components rest on. */
module Common {

  datatype Option<+T> = None | Some(value: T)

  /** The error codes the modelled calls can return. `Trap` stands for a host-level abort:
      an overflowing `+` (the release profile enables overflow checks) or a refused token transfer. */
  datatype Error =
    | CBOpen | CBError
    | FeeExceedsMax | MarketNotFound | MarketClosed | MarketResolved | MarketNotResolved
    | AlreadyBet | InvalidOutcome | InsufficientStake | InsufficientBalance | InvalidInput | InvalidState
    | NothingToClaim | IdempotentBatchAlreadyApplied
    | Unauthorized | AdminNotSet | ConfigNotFound | DisputeError
    | Trap

  datatype Result<+T> = Ok(value: T) | Err(error: Error) {
    predicate IsFailure() {
      Err?
    }

    function PropagateFailure<U>(): Result<U>
      requires Err?
    {
      Err(error)
    }

    function Extract(): T
      requires Ok?
    {
      value
    }
  }

  /** A call reports and leaves behind what its specified result says: the specified new state on
      success, the error and the untouched old state on failure. */
  predicate Follows<T, S(==)>(outcome: Result<T>, before: S, after: S, spec: Result<S>) {
    if spec.Ok? then outcome.Ok? && after == spec.value
    else outcome.Err? && outcome.error == spec.error && after == before
  }

  /** The outcome of a guard that yields no value. */
  datatype Check = Pass | Fail(error: Error) {
    predicate IsFailure() {
      Fail?
    }

    function PropagateFailure<U>(): Result<U>
      requires Fail?
    {
      Err(error)
    }
  }

  function Need(condition: bool, error: Error): Check {
    if condition then Pass else Fail(error)
  }

  const U32_MAX: int := 0xFFFF_FFFF
  const I128_MAX: int := 0x7FFF_FFFF_FFFF_FFFF_FFFF_FFFF_FFFF_FFFF
  const I128_MIN: int := -0x8000_0000_0000_0000_0000_0000_0000_0000

  /** `i128::saturating_sub`. */
  function SatSubI128(a: int, b: int): int {
    var d := a - b;
    if d < I128_MIN then I128_MIN else if d > I128_MAX then I128_MAX else d
  }

  /** `i128::saturating_mul`. */
  function SatMulI128(a: int, b: int): int {
    var p := a * b;
    if p < I128_MIN then I128_MIN else if p > I128_MAX then I128_MAX else p
  }

  /** `u32::saturating_sub`. */
  function SatSubU32(a: nat, b: nat): nat {
    if a < b then 0 else a - b
  }

  /** Machine division: truncates toward zero. */
  function Quot(a: int, b: int): int
    requires b != 0
  {
    if (a >= 0) == (b > 0) then Abs(a) / Abs(b) else -(Abs(a) / Abs(b))
  }

  function Abs(a: int): nat {
    if a < 0 then -a else a
  }

  function GetOr<K, V>(m: map<K, V>, k: K, default: V): V {
    if k in m then m[k] else default
  }

  // ----- duplicate-free lists -----

  ghost predicate NoDup<T(!new)>(s: seq<T>) {
    forall i, j :: 0 <= i < j < |s| ==> s[i] != s[j]
  }

  /** Every finite set can be listed without repetition. */
  lemma Enumerate<T(!new)>(s: set<T>) returns (l: seq<T>)
    ensures NoDup(l)
    ensures forall x :: x in l <==> x in s
  {
    if s == {} {
      l := [];
    } else {
      var x :| x in s;
      var rest := Enumerate(s - {x});
      l := rest + [x];
    }
  }

  lemma NoDupSize<T(!new)>(l: seq<T>, s: set<T>)
    requires NoDup(l)
    requires forall x :: x in l ==> x in s
    ensures |l| <= |s|
    ensures |l| == |s| ==> forall x :: x in s ==> x in l
  {
    if |l| == 0 {
    } else {
      var k := |l| - 1;
      var x := l[k];
      NoDupSize(l[..k], s - {x});
      forall y | |l| == |s| && y in s ensures y in l {
        if y != x { assert y in l[..k]; }
      }
    }
  }

  // ----- floored pro rata division -----

  function SumInts(s: seq<int>): int {
    if s == [] then 0 else SumInts(s[..|s| - 1]) + s[|s| - 1]
  }

  /** Each claimant's floored share `a * pool / total`. */
  function Shares(s: seq<int>, pool: int, total: int): seq<int>
    requires total > 0
  {
    seq(|s|, i requires 0 <= i < |s| => s[i] * pool / total)
  }

  lemma DivBounds(x: int, d: int)
    requires d > 0
    ensures d * (x / d) <= x < d * (x / d) + d
  {
  }

  /** Cancelling a positive factor across a gap smaller than the factor. */
  lemma Cancel(d: int, a: int, b: int)
    requires d > 0
    requires d * a < d * b + d
    ensures a <= b
  {
    if a > b {
      MulMono(d, b + 1, a);
    }
  }

  lemma MulMono(d: int, a: int, b: int)
    requires d >= 0
    requires a <= b
    ensures d * a <= d * b
  {
  }

  lemma Distribute(f: int, a: int, b: int)
    ensures f * (a + b) == f * a + f * b
  {
  }

  lemma DivLe(x: int, d: int, q: int)
    requires d > 0
    requires x <= d * q
    ensures x / d <= q
  {
    DivBounds(x, d);
    Cancel(d, x / d, q);
  }

  lemma DivGe(x: int, d: int, q: int)
    requires d > 0
    requires x >= d * q
    ensures x / d >= q
  {
    DivBounds(x, d);
    Cancel(d, q, x / d);
  }

  lemma {:induction false} SharesScaled(s: seq<int>, pool: int, total: int)
    requires total > 0
    ensures total * SumInts(Shares(s, pool, total)) <= SumInts(s) * pool
    ensures SumInts(s) * pool <= total * SumInts(Shares(s, pool, total)) + |s| * (total - 1)
  {
    if s == [] {
    } else {
      var k := |s| - 1;
      var f := Shares(s, pool, total);
      assert f[..k] == Shares(s[..k], pool, total);
      SharesScaled(s[..k], pool, total);
      DivBounds(s[k] * pool, total);
      ScaledStep(total, pool, SumInts(f[..k]), SumInts(s[..k]), k, s[k], f[k]);
    }
  }

  /** One more claimant `a`, with floored share `q`, on top of `n` claimants with sum `claimed` and shares `f`. */
  lemma ScaledStep(total: int, pool: int, f: int, claimed: int, n: int, a: int, q: int)
    requires total * f <= claimed * pool <= total * f + n * (total - 1)
    requires total * q <= a * pool <= total * q + (total - 1)
    ensures total * (f + q) <= (claimed + a) * pool <= total * (f + q) + (n + 1) * (total - 1)
  {
    Distribute(total, f, q);
    assert (claimed + a) * pool == claimed * pool + a * pool;
    assert (n + 1) * (total - 1) == n * (total - 1) + (total - 1);
  }

  /** Flooring never pays out more than the pool, and loses less than one unit per claimant. */
  lemma SharesBounded(s: seq<int>, pool: int, total: int)
    requires total > 0
    requires pool >= 0
    requires SumInts(s) <= total
    ensures SumInts(Shares(s, pool, total)) <= pool
    ensures SumInts(s) == total && |s| > 0 ==> pool - (|s| - 1) <= SumInts(Shares(s, pool, total))
  {
    SharesScaled(s, pool, total);
    Unscale(total, pool, SumInts(s), SumInts(Shares(s, pool, total)), |s|);
  }

  /** Claimants with `extra` claims beyond the divisor are together paid the pool and their floored extra share,
      but for less than one unit each. */
  lemma SharesAtLeast(s: seq<int>, pool: int, total: int, extra: int)
    requires total > 0 && pool >= 0 && extra >= 0 && SumInts(s) == total + extra
    ensures pool + extra * pool / total - (|s| - 1) <= SumInts(Shares(s, pool, total))
  {
    SharesScaled(s, pool, total);
    assert s != [];
    DivBounds(extra * pool, total);
    LowerUnscale(total, pool, extra, extra * pool / total, SumInts(Shares(s, pool, total)), |s|);
  }

  lemma LowerUnscale(total: int, pool: int, extra: int, q: int, f: int, n: int)
    requires total > 0 && n > 0
    requires (total + extra) * pool <= total * f + n * (total - 1)
    requires total * q <= extra * pool
    ensures pool + q - (n - 1) <= f
  {
    assert (total + extra) * pool == total * pool + extra * pool;
    assert n * (total - 1) == total * n - n;
    assert total * (pool + q - n) == total * pool + total * q - total * n;
    assert total * (f - 1) == total * f - total;
    Cancel(total, pool + q - n, f - 1);
  }

  lemma Unscale(total: int, pool: int, claimed: int, f: int, n: int)
    requires total > 0 && pool >= 0 && claimed <= total
    requires total * f <= claimed * pool <= total * f + n * (total - 1)
    ensures f <= pool
    ensures claimed == total && n > 0 ==> pool - (n - 1) <= f
  {
    MulMono(pool, claimed, total);
    Cancel(total, f, pool);
    if claimed == total && n > 0 {
      DustLemma(total, pool, f, n);
    }
  }

  lemma DustLemma(total: int, pool: int, f: int, n: int)
    requires total > 0 && n > 0
    requires total * pool <= total * f + n * (total - 1)
    ensures pool - (n - 1) <= f
  {
    assert n * (total - 1) == total * n - n;
    assert total * (pool - n) == total * pool - total * n;
    assert total * (f - 1) == total * f - total;
    Cancel(total, pool - n, f - 1);
  }
}
