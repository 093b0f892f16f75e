/** Per-market M-of-N approval of a dispute outcome. */
module DisputeMultiSig {
  import opened Common

  type Address = nat

  datatype Dispute = Dispute(threshold: nat, signers: seq<Address>, approvals: seq<Address>, proposedOutcome: nat)

  function Configure(signers: seq<Address>, threshold: nat, proposedOutcome: nat): Result<Dispute> {
    if signers == [] then Err(InvalidInput) else
    :- Need(0 < threshold <= |signers|, InvalidInput);
    Ok(Dispute(threshold, signers, [], proposedOutcome))
  }

  /** The stored entry after an approval (none once the threshold is reached), and whether it was. */
  function Approve(d: Option<Dispute>, signer: Address): Result<(Option<Dispute>, bool)> {
    if d.None? then Err(MarketNotFound) else
    :- Need(signer in d.value.signers, Unauthorized);
    :- Need(signer !in d.value.approvals, InvalidState);
    var next := d.value.(approvals := d.value.approvals + [signer]);
    if |next.approvals| >= next.threshold then Ok((None, true)) else Ok((Some(next), false))
  }

  /** The entry after a list of approval attempts; failed ones leave it alone. */
  function ApproveAll(d: Option<Dispute>, who: seq<Address>): Option<Dispute> {
    if who == [] then d else
    var before := ApproveAll(d, who[..|who| - 1]);
    var r := Approve(before, who[|who| - 1]);
    if r.Ok? then r.value.0 else before
  }

  /** The signers among the callers, each once, in order of first appearance. */
  function Distinct(signers: seq<Address>, who: seq<Address>): seq<Address> {
    if who == [] then [] else
    var before := Distinct(signers, who[..|who| - 1]);
    var w := who[|who| - 1];
    if w in signers && w !in before then before + [w] else before
  }

  lemma {:induction false} DistinctFacts(signers: seq<Address>, who: seq<Address>)
    ensures NoDup(Distinct(signers, who))
    ensures forall w :: w in Distinct(signers, who) <==> w in who && w in signers
  {
    if who == [] {
    } else {
      DistinctFacts(signers, who[..|who| - 1]);
      assert who == who[..|who| - 1] + [who[|who| - 1]];
    }
  }

  /** However the calls come, the entry holds exactly the distinct signers heard so far as long as they
      are fewer than the threshold, and is gone as soon as they are not. */
  lemma {:induction false} ApprovalsAreDistinctSigners(d: Dispute, who: seq<Address>)
    requires d.approvals == [] && d.threshold > 0
    ensures ApproveAll(Some(d), who) ==
            if |Distinct(d.signers, who)| < d.threshold then Some(d.(approvals := Distinct(d.signers, who))) else None
  {
    if who == [] {
    } else {
      ApprovalsAreDistinctSigners(d, who[..|who| - 1]);
    }
  }

  /** In any order of calls, one of them reports success exactly when its caller is the distinct signer
      that makes the threshold. */
  lemma ApproveReachesThresholdIff(d: Dispute, who: seq<Address>, w: Address)
    requires d.approvals == [] && d.threshold > 0
    ensures var r := Approve(ApproveAll(Some(d), who), w);
            (r.Ok? && r.value.1) <==>
              (w in d.signers && w !in who && |Distinct(d.signers, who)| + 1 == d.threshold)
  {
    ApprovalsAreDistinctSigners(d, who);
    DistinctFacts(d.signers, who);
  }

  /** A configuration can be approved by some list of calls exactly when it names at least as many
      different signers as its threshold. `Configure` counts repeated signers, so it also accepts
      configurations that can never be approved. */
  lemma ApprovableIff(signers: seq<Address>, threshold: nat, proposedOutcome: nat)
    requires Configure(signers, threshold, proposedOutcome).Ok?
    ensures (exists who :: ApproveAll(Some(Configure(signers, threshold, proposedOutcome).value), who) == None)
            <==> threshold <= |Distinct(signers, signers)|
  {
    var d := Configure(signers, threshold, proposedOutcome).value;
    ApprovalsAreDistinctSigners(d, signers);
    DistinctFacts(signers, signers);
    if who :| ApproveAll(Some(d), who) == None {
      ApprovalsAreDistinctSigners(d, who);
      DistinctFacts(signers, who);
      var s := set x | x in Distinct(signers, signers);
      NoDupSize(Distinct(signers, who), s);
      SetSize(Distinct(signers, signers), s);
    }
  }

  /** When a configuration is accepted, and what an approval call answers. */
  lemma ConfigureIff(signers: seq<Address>, threshold: nat, proposedOutcome: nat)
    ensures Configure(signers, threshold, proposedOutcome).Ok? <==> 0 < threshold <= |signers|
    ensures Configure(signers, threshold, proposedOutcome).Err? ==>
              Configure(signers, threshold, proposedOutcome).error == InvalidInput
  {
  }

  lemma ApproveIff(d: Option<Dispute>, signer: Address)
    ensures Approve(d, signer).Ok? <==> d.Some? && signer in d.value.signers && signer !in d.value.approvals
    ensures Approve(d, signer) == Err(MarketNotFound) <==> d.None?
    ensures Approve(d, signer) == Err(Unauthorized) <==> d.Some? && signer !in d.value.signers
  {
  }

  /** One signer named twice, with a threshold of two, is accepted and can never be approved. */
  lemma UnapprovableWitness()
    ensures Configure([5, 5], 2, 0).Ok?
    ensures forall who :: ApproveAll(Some(Configure([5, 5], 2, 0).value), who) != None
  {
    DistinctFacts([5, 5], [5, 5]);
    NoDupSize(Distinct([5, 5], [5, 5]), {5});
    ApprovableIff([5, 5], 2, 0);
  }

  ghost predicate Open(d: Dispute) {
    && NoDup(d.approvals) && |d.approvals| < d.threshold
    && forall a | a in d.approvals :: a in d.signers
  }

  lemma {:induction false} SetSize(l: seq<Address>, s: set<Address>)
    requires NoDup(l) && s == set x | x in l
    ensures |s| == |l|
  {
    if l == [] {
    } else {
      var k := |l| - 1;
      var x := l[k];
      SetSize(l[..k], set y | y in l[..k]);
      assert s == (set y | y in l[..k]) + {x};
    }
  }

  class DisputeStore {
    var entries: map<nat, Dispute>

    constructor ()
      ensures entries == map[] && Valid()
    {
      entries := map[];
    }

    function Entry(market: nat): Option<Dispute>
      reads this
    {
      if market in entries then Some(entries[market]) else None
    }

    /** Every stored entry holds fewer distinct approvals than its threshold, all by its signers. */
    ghost predicate Valid()
      reads this
    {
      forall m | m in entries :: Open(entries[m])
    }

    method ConfigureMarket(market: nat, signers: seq<Address>, threshold: nat, proposedOutcome: nat)
      returns (outcome: Result<()>)
      requires Valid()
      modifies this
      ensures var spec := Configure(signers, threshold, proposedOutcome);
              if spec.Ok? then outcome.Ok? && entries == old(entries)[market := spec.value]
              else outcome == Err(spec.error) && entries == old(entries)
      ensures Valid()
      ensures outcome.Ok? ==>
                forall who :: ApproveAll(Entry(market), who) == None <==> |Distinct(signers, who)| >= threshold
    {
      if |signers| == 0 {
        return Err(InvalidInput);
      }
      if threshold == 0 || threshold > |signers| {
        return Err(InvalidInput);
      }
      entries := entries[market := Dispute(threshold, signers, [], proposedOutcome)];
      forall who ensures ApproveAll(Entry(market), who) == None <==> |Distinct(signers, who)| >= threshold {
        ApprovalsAreDistinctSigners(entries[market], who);
      }
      return Ok(());
    }

    method ApproveMarket(market: nat, signer: Address) returns (outcome: Result<bool>)
      requires Valid()
      modifies this
      ensures var spec := Approve(old(Entry(market)), signer);
              if spec.Ok? then outcome == Ok(spec.value.1) && Entry(market) == spec.value.0
              else outcome == Err(spec.error) && entries == old(entries)
      ensures forall m | m != market :: Entry(m) == old(Entry(m))
      ensures Valid()
    {
      if market !in entries {
        return Err(MarketNotFound);
      }
      var state := entries[market];
      if signer !in state.signers {
        return Err(Unauthorized);
      }
      if signer in state.approvals {
        return Err(InvalidState);
      }
      state := state.(approvals := state.approvals + [signer]);
      var reached := |state.approvals| >= state.threshold;
      if reached {
        entries := entries - {market};
      } else {
        entries := entries[market := state];
      }
      return Ok(reached);
    }
  }
}
