/** The stand-alone payout helpers, which saturate instead of failing. */
module PayoutUtils {
  import opened Common

  function CalculateBps(amount: int, bps: nat): int {
    if amount <= 0 then 0 else Quot(SatMulI128(amount, bps), 10_000)
  }

  function PayoutShare(totalPool: int, userStake: int, winningStakes: int): int {
    if winningStakes <= 0 || totalPool <= 0 || userStake <= 0 then 0
    else Quot(SatMulI128(totalPool, userStake), winningStakes)
  }

  function SumPayoutShares(totalPool: int, stakes: seq<int>, winningStakes: int): int {
    if stakes == [] then 0
    else SumPayoutShares(totalPool, stakes[..|stakes| - 1], winningStakes)
         + PayoutShare(totalPool, stakes[|stakes| - 1], winningStakes)
  }

  /** Saturation only ever lowers a share; below 128 bits it is the floored proportional share. */
  lemma ShareAtMostProportional(totalPool: int, userStake: int, winningStakes: int)
    requires totalPool > 0 && userStake >= 0 && winningStakes > 0
    ensures 0 <= PayoutShare(totalPool, userStake, winningStakes) <= userStake * totalPool / winningStakes
    ensures totalPool * userStake <= I128_MAX ==>
              PayoutShare(totalPool, userStake, winningStakes) == userStake * totalPool / winningStakes
  {
    MulMono(totalPool, 0, userStake);
    var exact := totalPool * userStake;
    assert exact == userStake * totalPool;
    DivGe(exact, winningStakes, 0);
    if userStake > 0 {
      var sat := SatMulI128(totalPool, userStake);
      DivBounds(sat, winningStakes);
      DivGe(exact, winningStakes, sat / winningStakes);
      DivGe(sat, winningStakes, 0);
    }
  }

  /** `q` is the whole part of a product, capped at the 128-bit maximum, divided by `d`. */
  predicate CappedQuotient(a: int, b: int, d: int, q: int) {
    var capped := if a * b <= I128_MAX then a * b else I128_MAX;
    d * q <= capped < d * q + d
  }

  /** On all inputs: nothing for inputs that are not positive, else the capped quotient. */
  lemma ShareIs(totalPool: int, userStake: int, winningStakes: int)
    ensures totalPool <= 0 || userStake <= 0 || winningStakes <= 0 ==>
              PayoutShare(totalPool, userStake, winningStakes) == 0
    ensures totalPool > 0 && userStake > 0 && winningStakes > 0 ==>
              CappedQuotient(totalPool, userStake, winningStakes, PayoutShare(totalPool, userStake, winningStakes))
  {
    if totalPool > 0 && userStake > 0 && winningStakes > 0 {
      MulMono(totalPool, 1, userStake);
      DivBounds(SatMulI128(totalPool, userStake), winningStakes);
    }
  }

  lemma BpsIs(amount: int, bps: nat)
    ensures amount <= 0 ==> CalculateBps(amount, bps) == 0
    ensures amount > 0 ==> CappedQuotient(amount, bps, 10_000, CalculateBps(amount, bps))
  {
    if amount > 0 {
      MulMono(amount, 0, bps);
      DivBounds(SatMulI128(amount, bps), 10_000);
    }
  }

  /** For all inputs, saturating or not, the shares of all winners fit in the pool. */
  lemma SharesFitPool(totalPool: int, stakes: seq<int>, winningStakes: int)
    requires totalPool >= 0 && (forall a | a in stakes :: a >= 0) && SumInts(stakes) <= winningStakes
    ensures SumPayoutShares(totalPool, stakes, winningStakes) <= totalPool
  {
    if winningStakes > 0 && totalPool > 0 {
      SumBelow(totalPool, stakes, winningStakes);
      SharesBounded(stakes, totalPool, winningStakes);
    } else {
      NoShares(totalPool, stakes, winningStakes);
    }
  }

  lemma {:induction false} SumBelow(totalPool: int, stakes: seq<int>, winningStakes: int)
    requires totalPool > 0 && winningStakes > 0 && forall a | a in stakes :: a >= 0
    ensures SumPayoutShares(totalPool, stakes, winningStakes) <= SumInts(Shares(stakes, totalPool, winningStakes))
  {
    if stakes == [] {
    } else {
      var k := |stakes| - 1;
      assert forall a | a in stakes[..k] :: a in stakes;
      assert stakes[k] in stakes;
      SumBelow(totalPool, stakes[..k], winningStakes);
      ShareAtMostProportional(totalPool, stakes[k], winningStakes);
      assert Shares(stakes, totalPool, winningStakes)[..k] == Shares(stakes[..k], totalPool, winningStakes);
    }
  }

  lemma {:induction false} NoShares(totalPool: int, stakes: seq<int>, winningStakes: int)
    requires winningStakes <= 0 || totalPool <= 0
    ensures SumPayoutShares(totalPool, stakes, winningStakes) == 0
  {
    if stakes != [] {
      NoShares(totalPool, stakes[..|stakes| - 1], winningStakes);
    }
  }

  /** A fee in basis points, up to the whole, never exceeds the amount it is taken from. */
  lemma BpsWithinAmount(amount: int, bps: nat)
    requires bps <= 10_000
    ensures 0 <= CalculateBps(amount, bps) <= (if amount <= 0 then 0 else amount)
    ensures amount > 0 && amount * bps <= I128_MAX ==> CalculateBps(amount, bps) == amount * bps / 10_000
  {
    if amount > 0 {
      MulMono(amount, 0, bps);
      MulMono(amount, bps, 10_000);
      var sat := SatMulI128(amount, bps);
      DivLe(sat, 10_000, amount);
      DivGe(sat, 10_000, 0);
    }
  }
}
