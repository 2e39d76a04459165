/** Fees and gas of a speed-up or cancellation (internal/wallet/replacement.go). */
module Replacement {
  import opened Records
  import opened Words

  /** 20% more, rounded up. */
  function Bump(amount: nat): nat {
    (amount * 120 + 99) / 100
  }

  function BumpTip(tip: nat): nat {
    if Bump(tip) == 0 then 1 else Bump(tip)
  }

  function Max(a: nat, b: nat): nat {
    if a < b then b else a
  }

  function RaisedTip(prior: seq<SignedTx>, suggested: nat): nat {
    if prior == [] then suggested
    else Max(RaisedTip(prior[..|prior|-1], suggested), BumpTip(prior[|prior|-1].tip))
  }

  function RaisedFee(prior: seq<SignedTx>): nat {
    if prior == [] then 0
    else Max(RaisedFee(prior[..|prior|-1]), Bump(prior[|prior|-1].feeCap))
  }

  datatype Fees = Fees(tip: nat, feeCap: nat)

  function ReplacementFees(prior: seq<SignedTx>, suggestedTip: nat, baseFee: nat): Fees {
    var tip := RaisedTip(prior, suggestedTip);
    Fees(tip, Max(RaisedFee(prior), baseFee * 2 + tip))
  }

  /** Both fees are at least 6/5 of the old ones, and strictly larger. */
  predicate Outbids(fees: Fees, tx: SignedTx) {
    && 5 * fees.tip >= 6 * tx.tip && fees.tip > tx.tip
    && 5 * fees.feeCap >= 6 * tx.feeCap && fees.feeCap > tx.feeCap
  }

  lemma {:induction false} RaisedAbove(prior: seq<SignedTx>, suggested: nat, k: nat)
    requires k < |prior|
    ensures RaisedTip(prior, suggested) >= BumpTip(prior[k].tip)
    ensures RaisedFee(prior) >= Bump(prior[k].feeCap)
  {
    if k < |prior| - 1 {
      RaisedAbove(prior[..|prior|-1], suggested, k);
    }
  }

  /** A replacement outbids every transaction already recorded at its nonce, whatever the node
      suggests, and its fee cap covers its own tip and the suggestion. */
  lemma ReplacementOutbids(prior: seq<SignedTx>, suggestedTip: nat, baseFee: nat)
    ensures var fees := ReplacementFees(prior, suggestedTip, baseFee);
      && (forall tx :: tx in prior ==> Outbids(fees, tx))
      && fees.feeCap >= fees.tip + 2 * baseFee
  {
    var fees := ReplacementFees(prior, suggestedTip, baseFee);
    forall tx | tx in prior ensures Outbids(fees, tx) {
      var k :| 0 <= k < |prior| && prior[k] == tx;
      RaisedAbove(prior, suggestedTip, k);
      assert 5 * Bump(tx.tip) >= 6 * tx.tip && 5 * Bump(tx.feeCap) >= 6 * tx.feeCap;
    }
  }

  /** Fees a replacement may have: no less than the node suggests, above all that is recorded, and a fee
      cap that covers its own tip and twice the base fee. */
  predicate Suffices(fees: Fees, prior: seq<SignedTx>, suggestedTip: nat, baseFee: nat) {
    && fees.tip >= suggestedTip && fees.feeCap >= fees.tip + 2 * baseFee
    && forall tx :: tx in prior ==> Outbids(fees, tx)
  }

  lemma LeastBump(x: nat, amount: nat)
    requires 5 * x >= 6 * amount
    ensures x >= Bump(amount)
  {
  }

  lemma {:induction false} RaisedLeast(prior: seq<SignedTx>, suggestedTip: nat, baseFee: nat, fees: Fees)
    requires Suffices(fees, prior, suggestedTip, baseFee)
    ensures RaisedTip(prior, suggestedTip) <= fees.tip && RaisedFee(prior) <= fees.feeCap
  {
    hide Bump;
    if prior != [] {
      var last := prior[|prior|-1];
      RaisedLeast(prior[..|prior|-1], suggestedTip, baseFee, fees);
      assert last in prior;
      LeastBump(fees.tip, last.tip);
      LeastBump(fees.feeCap, last.feeCap);
    }
  }

  lemma {:induction false} RaisedAtLeast(prior: seq<SignedTx>, suggestedTip: nat)
    ensures RaisedTip(prior, suggestedTip) >= suggestedTip
  {
    hide BumpTip;
    if prior != [] {
      RaisedAtLeast(prior[..|prior|-1], suggestedTip);
    }
  }

  /** The fees of a replacement suffice, and none that do are lower. */
  lemma LeastReplacement(prior: seq<SignedTx>, suggestedTip: nat, baseFee: nat)
    ensures var fees := ReplacementFees(prior, suggestedTip, baseFee);
      && Suffices(fees, prior, suggestedTip, baseFee)
      && forall other :: Suffices(other, prior, suggestedTip, baseFee) ==> fees.tip <= other.tip && fees.feeCap <= other.feeCap
  {
    hide Outbids, RaisedTip, RaisedFee;
    var fees := ReplacementFees(prior, suggestedTip, baseFee);
    ReplacementOutbids(prior, suggestedTip, baseFee);
    RaisedAtLeast(prior, suggestedTip);
    forall other | Suffices(other, prior, suggestedTip, baseFee)
      ensures fees.tip <= other.tip && fees.feeCap <= other.feeCap
    {
      RaisedLeast(prior, suggestedTip, baseFee, other);
    }
  }

  /** The loop over the recorded transactions raises both fees in place. */
  method QuoteFees(prior: seq<SignedTx>, suggestedTip: nat, baseFee: nat) returns (tip: nat, fee: nat)
    ensures Fees(tip, fee) == ReplacementFees(prior, suggestedTip, baseFee)
    ensures Suffices(Fees(tip, fee), prior, suggestedTip, baseFee)
    ensures forall other :: Suffices(other, prior, suggestedTip, baseFee) ==> tip <= other.tip && fee <= other.feeCap
  {
    hide Outbids, Suffices;
    tip, fee := suggestedTip, 0;
    for i := 0 to |prior|
      invariant tip == RaisedTip(prior[..i], suggestedTip)
      invariant fee == RaisedFee(prior[..i])
    {
      assert prior[..i + 1][..i] == prior[..i];
      var bumpTip := Bump(prior[i].tip);
      var bumpFee := Bump(prior[i].feeCap);
      if bumpTip == 0 {
        bumpTip := 1;
      }
      if tip < bumpTip {
        tip := bumpTip;
      }
      if fee < bumpFee {
        fee := bumpFee;
      }
    }
    assert prior[..|prior|] == prior;
    var suggested := baseFee * 2 + tip;
    if fee < suggested {
      fee := suggested;
    }
    LeastReplacement(prior, suggestedTip, baseFee);
  }

  function Pow(base: nat, k: nat): nat {
    if k == 0 then 1 else base * Pow(base, k - 1)
  }

  lemma {:induction false} PowPositive(base: nat, k: nat)
    requires base > 0
    ensures Pow(base, k) > 0
  {
    if k > 0 {
      PowPositive(base, k - 1);
    }
  }

  /** Successive replacements: each outbids the one before it. */
  predicate Ladder(txs: seq<SignedTx>) {
    forall i :: 0 < i < |txs| ==> Outbids(Fees(txs[i].tip, txs[i].feeCap), txs[i - 1])
  }

  /** After k replacements the fee cap has grown by at least (6/5)^k. */
  lemma {:induction false} LadderGrowth(txs: seq<SignedTx>)
    requires txs != [] && Ladder(txs)
    ensures Pow(5, |txs| - 1) * txs[|txs| - 1].feeCap >= Pow(6, |txs| - 1) * txs[0].feeCap
    decreases |txs|
  {
    if |txs| > 1 {
      var k := |txs| - 2;
      LadderGrowth(txs[..k + 1]);
      GrowthStep(Pow(5, k), Pow(6, k), txs[0].feeCap, txs[k].feeCap, txs[k + 1].feeCap);
    }
  }

  lemma GrowthStep(p: nat, q: nat, first: nat, before: nat, last: nat)
    requires p * before >= q * first && 5 * last >= 6 * before
    ensures 5 * p * last >= 6 * q * first
  {
    MulMonotone(p, 6 * before, 5 * last);
    assert p * (6 * before) == 6 * (p * before) && p * (5 * last) == 5 * p * last;
    assert 6 * (q * first) == 6 * q * first;
  }

  lemma MulMonotone(c: nat, a: nat, b: nat)
    requires a <= b
    ensures c * a <= c * b
  {
  }

  // ---------------------------------------------------------------- gas

  /** The gas limit of a replacement: a fifth more than the estimate, in 64-bit arithmetic, and
      no more than the block allows. */
  function ReplacementGas(estimate: nat, blockLimit: nat): Option<nat>
    requires estimate < TWO64 && blockLimit < TWO64
  {
    if estimate < 21000 || estimate > blockLimit then None
    else
      var gas := (estimate + estimate / 5) % TWO64;
      Some(if gas > blockLimit then blockLimit else gas)
  }

  /** The limit covers the estimate exactly when adding the fifth does not wrap around: unlike a
      first quote, a replacement does not check for that. */
  lemma ReplacementGasCovers(estimate: nat, blockLimit: nat)
    requires estimate < TWO64 && blockLimit < TWO64
    requires ReplacementGas(estimate, blockLimit).Some?
    ensures ReplacementGas(estimate, blockLimit).value >= estimate <==> estimate + estimate / 5 < TWO64
    ensures ReplacementGas(estimate, blockLimit).value <= blockLimit
  {
    var sum := estimate + estimate / 5;
    if sum >= TWO64 {
      assert sum % TWO64 == sum - TWO64;
    }
  }

  /** A block limit above 5/6 of the 64-bit range is where it goes wrong. */
  lemma ReplacementGasWraps()
    ensures ReplacementGas(TWO64 - 1, TWO64 - 1).Some?
    ensures ReplacementGas(TWO64 - 1, TWO64 - 1).value < TWO64 - 1
  {
  }
}
