/**
 The fee estimate for a fixed input set and the smallest-first coin selection around it.
 `feerate` is an exact real: the rounding of Python's float product is not modelled.
 */
module KaspaFee {
  import opened Common
  import opened KaspaMass

  datatype Params = Params(send: nat, feerate: real, priorityFee: int, scriptLen: nat, payloadLen: nat)

  datatype FeeEstimate = FeeEstimate(
    computeMass: nat, storageMass: nat, networkMass: nat,
    minimumFee: int, fee: int, change: int, nInputs: nat, nOutputs: nat)

  // ---------------------------------------------------------------- rounding up

  function Ceil(x: real): int { -((-x).Floor) }

  /** Adding y before rounding up moves the result by floor(y) or ceil(y), which are neighbours. */
  lemma CeilStep(x: real, y: real)
    ensures y.Floor <= Ceil(x + y) - Ceil(x) <= Ceil(y) <= y.Floor + 1
  {
  }

  // ---------------------------------------------------------------- one estimate

  function Scripts(p: Params, nOutputs: nat): seq<nat> {
    if nOutputs == 2 then [p.scriptLen, p.scriptLen] else [p.scriptLen]
  }

  function MassFor(n: nat, nOutputs: nat, p: Params): nat {
    ComputeMass(n, Scripts(p, nOutputs), p.payloadLen)
  }

  /** `m * f`, written as repeated addition to keep products of variables out of the proofs. */
  function Times(m: nat, f: real): real {
    if m == 0 then 0.0 else Times(m - 1, f) + f
  }

  lemma {:induction false} TimesIsProduct(m: nat, f: real)
    ensures Times(m, f) == m as real * f
  {
    if m > 0 {
      TimesIsProduct(m - 1, f);
      assert m as real * f == (m - 1) as real * f + f;
    }
  }

  lemma {:induction false} TimesAdds(m: nat, d: nat, f: real)
    ensures Times(m + d, f) == Times(m, f) + Times(d, f)
    ensures f >= 0.0 ==> Times(d, f) >= 0.0
    ensures f == 0.0 ==> Times(d, f) == 0.0
  {
    if d > 0 { TimesAdds(m, d - 1, f); }
  }

  /** `ceil(cm * feerate)`. */
  function Price(mass: nat, feerate: real): int {
    Ceil(Times(mass, feerate))
  }

  function MinimumFeeFor(n: nat, nOutputs: nat, p: Params): int {
    Price(MassFor(n, nOutputs, p), p.feerate)
  }

  function FeeFor(n: nat, nOutputs: nat, p: Params): int {
    MinimumFeeFor(n, nOutputs, p) + p.priorityFee
  }

  function EstimateFor(inputs: seq<nat>, p: Params): Result<FeeEstimate, FeeError> {
    var totalIn, n := Sum(inputs), |inputs|;
    var twoOutputs := totalIn - p.send - FeeFor(n, 2, p) > 0;
    var nOutputs := if twoOutputs then 2 else 1;
    var fee := FeeFor(n, nOutputs, p);
    var change := totalIn - p.send - fee;
    var outputs: seq<nat> := if twoOutputs then [p.send, change] else [p.send];
    var cm := MassFor(n, nOutputs, p);
    match StorageMass(inputs, outputs)
    case Err(e) => Err(e)
    case Ok(sm) => Ok(FeeEstimate(cm, sm, Max(cm, sm), MinimumFeeFor(n, nOutputs, p), fee, change, n, nOutputs))
  }

  lemma MassForIsAffine(n: nat, nOutputs: nat, p: Params)
    requires 1 <= nOutputs <= 2
    ensures MassFor(n, nOutputs, p) == 94 + p.payloadLen + 1118 * n + (38 + 11 * p.scriptLen) * nOutputs
  {
    ComputeMassIsAffine(n, Scripts(p, nOutputs), p.payloadLen);
    assert [p.scriptLen] == [] + [p.scriptLen];
    SumOfSnoc(Amount, [], p.scriptLen);
    HarmonicPair(p.scriptLen, p.scriptLen);
  }

  /** Raising a mass by d grams raises its price by d * f rounded down or rounded up. */
  lemma PriceStep(m: nat, d: nat, f: real)
    ensures Price(d, f) - 1 <= Price(m + d, f) - Price(m, f) <= Price(d, f)
    ensures f >= 0.0 ==> Price(m + d, f) >= Price(m, f)
  {
    TimesAdds(m, d, f);
    CeilStep(Times(m, f), Times(d, f));
  }

  /** The second output costs between nothing and the rounded-up price of its own mass. */
  lemma ChangeOutputPrice(n: nat, p: Params)
    ensures FeeFor(n, 2, p) - FeeFor(n, 1, p) <= Price(38 + 11 * p.scriptLen, p.feerate)
    ensures p.feerate >= 0.0 ==> FeeFor(n, 1, p) <= FeeFor(n, 2, p)
  {
    MassForIsAffine(n, 1, p);
    MassForIsAffine(n, 2, p);
    PriceStep(MassFor(n, 1, p), 38 + 11 * p.scriptLen, p.feerate);
  }

  /**
   Every estimate conserves value. With two outputs the change is positive; with one, what is
   left over is at most the price of the change output that was left out.
   */
  lemma EstimateConservesValue(inputs: seq<nat>, p: Params)
    requires EstimateFor(inputs, p).Ok?
    ensures var e := EstimateFor(inputs, p).value;
            && Sum(inputs) == p.send + e.fee + e.change
            && e.fee == e.minimumFee + p.priorityFee
            && e.networkMass >= e.computeMass && e.networkMass >= e.storageMass
            && (e.networkMass == e.computeMass || e.networkMass == e.storageMass)
            && (e.nOutputs == 2 || e.nOutputs == 1)
            && (e.nOutputs == 2 ==> e.change > 0)
            && (e.nOutputs == 1 ==> e.change <= Price(38 + 11 * p.scriptLen, p.feerate))
  {
    ChangeOutputPrice(|inputs|, p);
  }

  /** What is left after paying for one output; selection `covers` exactly when it is not negative. */
  function Surplus(inputs: seq<nat>, p: Params): int {
    Sum(inputs) - p.send - FeeFor(|inputs|, 1, p)
  }

  predicate Covers(inputs: seq<nat>, p: Params, e: FeeEstimate) {
    Sum(inputs) >= p.send + e.fee
  }

  lemma CoversIffSurplus(inputs: seq<nat>, p: Params)
    requires EstimateFor(inputs, p).Ok? && p.feerate >= 0.0
    ensures Covers(inputs, p, EstimateFor(inputs, p).value) <==> Surplus(inputs, p) >= 0
    ensures Covers(inputs, p, EstimateFor(inputs, p).value) <==> EstimateFor(inputs, p).value.change >= 0
  {
    ChangeOutputPrice(|inputs|, p);
  }

  lemma EstimateSameElements(xs: seq<nat>, ys: seq<nat>, p: Params)
    requires SameElements(xs, ys)
    ensures EstimateFor(xs, p) == EstimateFor(ys, p)
  {
    hide FeeFor, SumOf;
    SumOfSameElements(Amount, xs, ys);
    SumOfSameElements(Reciprocal, xs, ys);
    assert 0 in xs <==> 0 in multiset(xs);
    assert 0 in ys <==> 0 in multiset(ys);
  }

  // ---------------------------------------------------------------- sorting

  ghost predicate Ascending(xs: seq<nat>) {
    forall i, j | 0 <= i < j < |xs| :: xs[i] <= xs[j]
  }

  function Insert(x: nat, xs: seq<nat>): (r: seq<nat>)
    ensures multiset(r) == multiset(xs) + multiset{x}
  {
    if xs == [] || x <= xs[0] then [x] + xs
    else
      assert xs == [xs[0]] + xs[1..];
      [xs[0]] + Insert(x, xs[1..])
  }

  lemma {:induction false} InsertAscending(x: nat, xs: seq<nat>)
    requires Ascending(xs)
    ensures Ascending(Insert(x, xs))
  {
    if xs != [] && x > xs[0] {
      InsertAscending(x, xs[1..]);
      var r := Insert(x, xs[1..]);
      forall i | 0 <= i < |r| ensures xs[0] <= r[i] {
        assert r[i] in multiset(r);
        assert r[i] == x || r[i] in xs[1..];
      }
    }
  }

  /** Python's `sorted`. */
  function Sorted(xs: seq<nat>): (r: seq<nat>)
    ensures multiset(r) == multiset(xs)
  {
    if xs == [] then [] else
      assert xs == [xs[0]] + xs[1..];
      Insert(xs[0], Sorted(xs[1..]))
  }

  lemma {:induction false} SortedAscends(xs: seq<nat>)
    ensures Ascending(Sorted(xs)) && |Sorted(xs)| == |xs|
  {
    assert |multiset(Sorted(xs))| == |Sorted(xs)|;
    if xs != [] {
      SortedAscends(xs[1..]);
      InsertAscending(xs[0], Sorted(xs[1..]));
    }
  }

  lemma AscendingHead(xs: seq<nat>, x: nat)
    requires Ascending(xs) && x in multiset(xs)
    ensures xs != [] && xs[0] <= x
  {
    var i :| 0 <= i < |xs| && xs[i] == x;
  }

  lemma MultisetTail(xs: seq<nat>)
    requires xs != []
    ensures xs[0] in multiset(xs) && multiset(xs[1..]) == multiset(xs) - multiset{xs[0]}
  {
    assert xs == [xs[0]] + xs[1..];
  }

  lemma SameTails(xs: seq<nat>, ys: seq<nat>)
    requires xs != [] && ys != [] && xs[0] == ys[0] && SameElements(xs, ys)
    ensures SameElements(xs[1..], ys[1..])
  {
    MultisetTail(xs);
    MultisetTail(ys);
  }

  lemma SameHeads(xs: seq<nat>, ys: seq<nat>)
    requires xs != [] && ys != [] && Ascending(xs) && Ascending(ys) && SameElements(xs, ys)
    ensures xs[0] == ys[0]
  {
    MultisetTail(xs);
    MultisetTail(ys);
    AscendingHead(xs, ys[0]);
    AscendingHead(ys, xs[0]);
  }

  lemma {:induction false} AscendingIsUnique(xs: seq<nat>, ys: seq<nat>)
    requires Ascending(xs) && Ascending(ys) && SameElements(xs, ys)
    ensures xs == ys
  {
    assert |xs| == |ys| by { assert |multiset(xs)| == |xs| && |multiset(ys)| == |ys|; }
    if xs != [] {
      SameHeads(xs, ys);
      SameTails(xs, ys);
      AscendingIsUnique(xs[1..], ys[1..]);
      assert xs == [xs[0]] + xs[1..] && ys == [ys[0]] + ys[1..];
    }
  }

  // ---------------------------------------------------------------- the selection loop

  predicate Accepts(inputs: seq<nat>, p: Params, e: FeeEstimate) {
    Covers(inputs, p, e) && e.storageMass <= e.computeMass
  }

  /** What the loop returns when it is about to look at the prefix of length k. */
  function Walk(amounts: seq<nat>, p: Params, select: bool, k: nat): Result<FeeEstimate, FeeError>
    requires 1 <= k <= |amounts|
    decreases |amounts| - k
  {
    var r := EstimateFor(amounts[..k], p);
    if r.Err? || k == |amounts| || (select && Accepts(amounts[..k], p, r.value)) then r
    else Walk(amounts, p, select, k + 1)
  }

  function Amounts(utxos: seq<nat>, select: bool): (r: seq<nat>)
    ensures multiset(r) == multiset(utxos)
  {
    if select then Sorted(utxos) else utxos
  }

  function Estimate(utxos: seq<nat>, p: Params, select: bool): Result<FeeEstimate, FeeError> {
    var amounts := Amounts(utxos, select);
    if utxos == [] then Err(NoUtxos)
    else if EstimateFor(amounts, p).Err? then EstimateFor(amounts, p)
    else
      assert |multiset(amounts)| == |amounts| && |multiset(utxos)| == |utxos|;
      Walk(amounts, p, select, 1)
  }

  method EstimateFee(utxos: seq<nat>, p: Params, select: bool) returns (r: Result<FeeEstimate, FeeError>)
    ensures r == Estimate(utxos, p, select)
  {
    hide EstimateFor, Sorted, Sum;
    if utxos == [] {
      return Err(NoUtxos);
    }
    var amounts := Amounts(utxos, select);
    assert |multiset(amounts)| == |amounts| && |multiset(utxos)| == |utxos|;
    var selected: seq<nat> := [];
    r := EstimateFor(amounts, p);
    if r.Err? {
      return;
    }
    ghost var expected := Walk(amounts, p, select, 1);
    assert Estimate(utxos, p, select) == expected;
    for i := 0 to |amounts|
      invariant selected == amounts[..i]
      invariant i < |amounts| ==> expected == Walk(amounts, p, select, i + 1)
      invariant i == |amounts| ==> r == expected
    {
      selected := selected + [amounts[i]];
      assert selected == amounts[..i + 1];
      r := EstimateFor(selected, p);
      if r.Err? {
        return;
      }
      if !select {
        continue;
      }
      var covered := Sum(selected) >= p.send + r.value.fee;
      if covered && r.value.storageMass <= r.value.computeMass {
        break;
      }
    }
  }

  // ---------------------------------------------------------------- what is selected

  ghost predicate ShortestAccepted(s: seq<nat>, p: Params, from: nat, k: nat) {
    && 1 <= from <= k <= |s| && EstimateFor(s[..k], p).Ok?
    && (k < |s| ==> Accepts(s[..k], p, EstimateFor(s[..k], p).value))
    && (forall j | from <= j < k ::
          EstimateFor(s[..j], p).Ok? && !Accepts(s[..j], p, EstimateFor(s[..j], p).value))
  }

  lemma EstimateCountsInputs(inputs: seq<nat>, p: Params)
    ensures EstimateFor(inputs, p).Ok? ==> EstimateFor(inputs, p).value.nInputs == |inputs|
  {
  }

  lemma {:induction false} WalkSelectsShortest(s: seq<nat>, p: Params, k: nat)
    requires 1 <= k <= |s| && Walk(s, p, true, k).Ok?
    ensures var e := Walk(s, p, true, k).value;
            ShortestAccepted(s, p, k, e.nInputs) && Walk(s, p, true, k) == EstimateFor(s[..e.nInputs], p)
    decreases |s| - k
  {
    hide EstimateFor, Covers;
    var r := EstimateFor(s[..k], p);
    EstimateCountsInputs(s[..k], p);
    if k < |s| && !Accepts(s[..k], p, r.value) {
      WalkSelectsShortest(s, p, k + 1);
    }
  }

  /**
   With selection the result is the estimate of the shortest smallest-first prefix that both
   covers send plus fee and has storage mass at most its compute mass, or of all inputs.
   */
  lemma SelectionIsShortestPrefix(utxos: seq<nat>, p: Params)
    requires Estimate(utxos, p, true).Ok?
    ensures var s, e := Sorted(utxos), Estimate(utxos, p, true).value;
            && Ascending(s) && SameElements(s, utxos)
            && ShortestAccepted(s, p, 1, e.nInputs)
            && Ok(e) == EstimateFor(s[..e.nInputs], p)
  {
    SortedAscends(utxos);
    WalkSelectsShortest(Sorted(utxos), p, 1);
  }

  lemma {:induction false} WalkWithoutSelection(s: seq<nat>, p: Params, k: nat)
    requires 1 <= k <= |s|
    ensures Walk(s, p, false, k).Ok?
            <==> forall j | k <= j <= |s| :: EstimateFor(s[..j], p).Ok?
    ensures Walk(s, p, false, k).Ok? ==> Walk(s, p, false, k) == EstimateFor(s, p)
    decreases |s| - k
  {
    hide EstimateFor, Covers;
    assert s[..|s|] == s;
    if EstimateFor(s[..k], p).Ok? && k < |s| {
      WalkWithoutSelection(s, p, k + 1);
    }
  }

  // ---------------------------------------------------------------- the estimate in numbers

  /** `c` is x rounded up. */
  ghost predicate RoundsUp(c: int, x: real) {
    c as real - 1.0 < x <= c as real
  }

  ghost predicate IsPrice(c: int, grams: nat, feerate: real) {
    RoundsUp(c, grams as real * feerate)
  }

  /** Grams of n inputs and one or two outputs. */
  function Grams(n: nat, nOutputs: nat, p: Params): nat {
    94 + p.payloadLen + 1118 * n + (38 + 11 * p.scriptLen) * nOutputs
  }

  /** What is left, in whole sompi, is more than a fee for two outputs. */
  ghost predicate PaysForChange(inputs: seq<nat>, p: Params) {
    (Sum(inputs) - p.send - p.priorityFee - 1) as real >= Grams(|inputs|, 2, p) as real * p.feerate
  }

  /**
   An estimate told from the inputs and parameters: change exactly when the rest pays for it, masses
   and fee of that transaction, and the storage mass of its very outputs.
   */
  ghost predicate Describes(inputs: seq<nat>, p: Params, e: FeeEstimate) {
    && e.nInputs == |inputs|
    && e.nOutputs == (if PaysForChange(inputs, p) then 2 else 1)
    && e.computeMass == Grams(|inputs|, e.nOutputs, p)
    && IsPrice(e.minimumFee, e.computeMass, p.feerate)
    && e.fee == e.minimumFee + p.priorityFee
    && e.change == Sum(inputs) - p.send - e.fee
    && (e.nOutputs == 2 ==> e.change > 0)
    && StorageMass(inputs, if e.nOutputs == 2 then [p.send, e.change] else [p.send]) == Ok(e.storageMass)
    && e.networkMass == (if e.storageMass >= e.computeMass then e.storageMass else e.computeMass)
  }

  lemma PriceRoundsUp(m: nat, f: real)
    ensures IsPrice(Price(m, f), m, f)
  {
    TimesIsProduct(m, f);
  }

  lemma PriceIsUnique(c: int, d: int, m: nat, f: real)
    requires IsPrice(c, m, f) && IsPrice(d, m, f)
    ensures c == d
  {
  }

  lemma AtLeastRoundedUp(c: int, x: real, k: int)
    requires RoundsUp(c, x)
    ensures k as real >= x <==> k >= c
  {
  }

  lemma ChangeIsPaid(inputs: seq<nat>, p: Params)
    ensures PaysForChange(inputs, p) <==> Sum(inputs) > p.send + FeeFor(|inputs|, 2, p)
  {
    MassForIsAffine(|inputs|, 2, p);
    PriceRoundsUp(MassFor(|inputs|, 2, p), p.feerate);
    AtLeastRoundedUp(MinimumFeeFor(|inputs|, 2, p), Grams(|inputs|, 2, p) as real * p.feerate,
                     Sum(inputs) - p.send - p.priorityFee - 1);
  }

  lemma EstimateIsDescribed(inputs: seq<nat>, p: Params, e: FeeEstimate)
    requires EstimateFor(inputs, p) == Ok(e)
    ensures Describes(inputs, p, e)
  {
    ChangeIsPaid(inputs, p);
    var n := if PaysForChange(inputs, p) then 2 else 1;
    MassForIsAffine(|inputs|, n, p);
    PriceRoundsUp(MassFor(|inputs|, n, p), p.feerate);
    hide MassFor, Price, IsPrice, Sum, StorageMass, PaysForChange;
  }

  lemma DescribedIsEstimate(inputs: seq<nat>, p: Params, e: FeeEstimate)
    requires Describes(inputs, p, e)
    ensures EstimateFor(inputs, p) == Ok(e)
  {
    ChangeIsPaid(inputs, p);
    var n := e.nOutputs;
    MassForIsAffine(|inputs|, n, p);
    PriceRoundsUp(MassFor(|inputs|, n, p), p.feerate);
    hide MassFor, Price, IsPrice, Sum, StorageMass, PaysForChange;
    PriceIsUnique(e.minimumFee, MinimumFeeFor(|inputs|, n, p), e.computeMass, p.feerate);
  }

  /** An estimate is what `Describes` says, and nothing else is. */
  lemma EstimateIsExact(inputs: seq<nat>, p: Params, e: FeeEstimate)
    ensures EstimateFor(inputs, p) == Ok(e) <==> Describes(inputs, p, e)
  {
    hide EstimateFor, Describes;
    if EstimateFor(inputs, p) == Ok(e) {
      EstimateIsDescribed(inputs, p, e);
    }
    if Describes(inputs, p, e) {
      DescribedIsEstimate(inputs, p, e);
    }
  }

  /** The inputs cover what is sent and the fee, and storage does not outweigh computation. */
  predicate Suffices(inputs: seq<nat>, p: Params, e: FeeEstimate) {
    Sum(inputs) >= p.send + e.fee && e.storageMass <= e.computeMass
  }

  /** The inputs have an estimate, and it does not suffice. */
  ghost predicate FallsShort(inputs: seq<nat>, p: Params) {
    && (exists e :: Describes(inputs, p, e))
    && (forall e | Describes(inputs, p, e) :: !Suffices(inputs, p, e))
  }

  /**
   Selection returns the estimate of the shortest smallest-first prefix that suffices, in the terms
   of `Describes`, or that of all inputs.
   */
  lemma SelectionTakesShortest(utxos: seq<nat>, p: Params, e: FeeEstimate)
    requires Estimate(utxos, p, true) == Ok(e)
    ensures var s := Sorted(utxos);
            && Ascending(s) && SameElements(s, utxos) && 1 <= e.nInputs <= |s|
            && Describes(s[..e.nInputs], p, e)
            && (e.nInputs < |s| ==> Suffices(s[..e.nInputs], p, e))
            && forall j | 1 <= j < e.nInputs :: FallsShort(s[..j], p)
  {
    SelectionIsShortestPrefix(utxos, p);
    var s := Sorted(utxos);
    hide EstimateFor, Estimate, Describes, Sorted, Sum, FallsShort, Ascending;
    EstimateIsExact(s[..e.nInputs], p, e);
    forall j | 1 <= j < e.nInputs ensures FallsShort(s[..j], p) {
      NotYetEnough(s[..j], p);
    }
  }

  lemma NotYetEnough(inputs: seq<nat>, p: Params)
    requires EstimateFor(inputs, p).Ok? && !Accepts(inputs, p, EstimateFor(inputs, p).value)
    ensures FallsShort(inputs, p)
  {
    hide EstimateFor, Describes, Sum;
    EstimateIsExact(inputs, p, EstimateFor(inputs, p).value);
    forall e | Describes(inputs, p, e) ensures !Suffices(inputs, p, e) {
      EstimateIsExact(inputs, p, e);
    }
  }

  lemma StorageOfCoins(n: nat, change: nat)
    requires (n == 1 && change == 979_796_400) || (n == 2 && change == 1_979_684_600)
    ensures var inputs: seq<nat> := if n == 1 then [1_000_000_000] else [1_000_000_000, 1_000_000_000];
            && Sum(inputs) == n * 1_000_000_000
            && StorageMass(inputs, [20_000_000, change]) == Ok(if n == 1 then 50020 else 48505)
  {
    var x := 1_000_000_000;
    HarmonicPair(20_000_000, change);
    if n == 1 {
      assert [x] == [] + [x];
      SumOfSnoc(Amount, [], x);
    } else {
      HarmonicPair(x, x);
    }
    hide SumOf;
  }

  /** The payment of the fee documentation, and the storage masses of its two prefixes. */
  lemma KnownEstimates()
    ensures var p := Params(20_000_000, 100.0, 0, 34, 0);
            && Describes([1_000_000_000], p, FeeEstimate(2036, 50020, 50020, 203600, 203600, 979_796_400, 1, 2))
            && Describes([1_000_000_000, 1_000_000_000], p,
                         FeeEstimate(3154, 48505, 48505, 315400, 315400, 1_979_684_600, 2, 2))
  {
    StorageOfCoins(1, 979_796_400);
    StorageOfCoins(2, 1_979_684_600);
    hide Sum, StorageMass;
  }

  // ---------------------------------------------------------------- division by zero

  lemma EstimateForRaises(inputs: seq<nat>, p: Params)
    requires inputs != []
    ensures p.send == 0 ==> EstimateFor(inputs, p).Err?
    ensures p.send > 0 && 0 !in inputs ==> EstimateFor(inputs, p).Ok?
    ensures inputs == [0] ==> EstimateFor(inputs, p).Err?
  {
    assert 0 !in inputs ==> Sum(inputs) > 0 by {
      if 0 !in inputs { SumPositive(inputs); }
    }
    assert inputs == [0] ==> Sum(inputs) == 0 by {
      assert [0] == [] + [0];
      SumOfSnoc(Amount, [], 0);
    }
    if p.send == 0 {
      assert [p.send][0] == 0;
      assert forall c: nat :: [p.send, c][0] == 0;
    }
  }

  lemma {:induction false} WalkNeverRaises(s: seq<nat>, p: Params, select: bool, k: nat)
    requires 1 <= k <= |s| && p.send > 0 && 0 !in s
    ensures Walk(s, p, select, k).Ok?
    decreases |s| - k
  {
    EstimateForRaises(s[..k], p);
    if k < |s| { WalkNeverRaises(s, p, select, k + 1); }
  }

  lemma SmallestFirst(xs: seq<nat>)
    requires 0 in xs
    ensures |Sorted(xs)| == |xs| && Sorted(xs)[0] == 0
  {
    SortedAscends(xs);
    assert 0 in multiset(Sorted(xs));
    var i :| 0 <= i < |Sorted(xs)| && Sorted(xs)[i] == 0;
  }

  /**
   No iteration divides by zero as long as nothing is zero, and with selection exactly then:
   a zero amount sorts first and makes the very first prefix raise.
   */
  lemma RaisesExactlyOnZeros(utxos: seq<nat>, p: Params, select: bool)
    requires utxos != []
    ensures p.send > 0 && 0 !in utxos ==> Estimate(utxos, p, select).Ok?
    ensures select ==> (Estimate(utxos, p, select).Ok? <==> p.send > 0 && 0 !in utxos)
  {
    var amounts := Amounts(utxos, select);
    assert 0 in amounts <==> 0 in multiset(amounts);
    assert 0 in utxos <==> 0 in multiset(utxos);
    assert |multiset(amounts)| == |amounts| && |multiset(utxos)| == |utxos|;
    EstimateForRaises(amounts, p);
    if p.send > 0 && 0 !in utxos {
      WalkNeverRaises(amounts, p, select, 1);
    } else if select && p.send > 0 {
      SmallestFirst(utxos);
      assert amounts[..1] == [0];
      EstimateForRaises(amounts[..1], p);
    }
  }

  // ---------------------------------------------------------------- order does not matter

  /** With selection, and without it for positive amounts, only the multiset of UTXOs matters. */
  lemma PositiveOrderDoesNotMatter(xs: seq<nat>, ys: seq<nat>, p: Params, select: bool)
    requires SameElements(xs, ys) && (!select ==> p.send > 0 && 0 !in xs)
    ensures Estimate(xs, p, select) == Estimate(ys, p, select)
  {
    assert |multiset(xs)| == |xs| && |multiset(ys)| == |ys|;
    if select {
      SortedAscends(xs);
      SortedAscends(ys);
      AscendingIsUnique(Sorted(xs), Sorted(ys));
    } else if xs != [] {
      assert 0 in ys <==> 0 in multiset(ys);
      assert 0 in xs <==> 0 in multiset(xs);
      WalkWithoutSelection(xs, p, 1);
      WalkWithoutSelection(ys, p, 1);
      WalkNeverRaises(xs, p, false, 1);
      WalkNeverRaises(ys, p, false, 1);
      EstimateSameElements(xs, ys, p);
    }
  }

  /** From three inputs on, a payment with change uses the standard formula, which tolerates zeros. */
  lemma ChangeToleratesZeros(inputs: seq<nat>, p: Params)
    requires |inputs| > 2 && p.send > 0 && Sum(inputs) > p.send + FeeFor(|inputs|, 2, p)
    requires FeeFor(|inputs|, 2, p) >= 0
    ensures EstimateFor(inputs, p).Ok?
  {
  }

  lemma ZeroRateIsFree(n: nat, nOutputs: nat, p: Params)
    requires p.feerate == 0.0 && p.priorityFee == 0
    ensures FeeFor(n, nOutputs, p) == 0
  {
    PriceNotNegative(MassFor(n, nOutputs, p), p.feerate);
  }

  lemma UnselectedRaises(rest: seq<nat>, p: Params)
    ensures Estimate([0] + rest, p, false).Err?
  {
    assert ([0] + rest)[..1] == [0];
    EstimateForRaises([0], p);
  }

  lemma UnselectedAccepts(s: seq<nat>, p: Params)
    requires s != [] && forall j | 1 <= j <= |s| :: EstimateFor(s[..j], p).Ok?
    ensures Estimate(s, p, false).Ok?
  {
    assert s[..|s|] == s;
    WalkWithoutSelection(s, p, 1);
  }

  lemma OnlyLastIsZero(s: seq<nat>, p: Params)
    requires |s| == 3 && 0 !in s[..2] && p.send > 0 && EstimateFor(s, p).Ok?
    ensures Estimate(s, p, false).Ok?
  {
    forall j | 1 <= j <= |s| ensures EstimateFor(s[..j], p).Ok? {
      if j < 3 {
        assert forall x | x in s[..j] :: x in s[..2];
        EstimateForRaises(s[..j], p);
      } else {
        assert s[..j] == s;
      }
    }
    UnselectedAccepts(s, p);
  }

  lemma ZeroLastIsAccepted(x: nat, y: nat, p: Params)
    requires x > 0 && y > 0 && p.send == 1 && p.feerate == 0.0 && p.priorityFee == 0
    ensures Estimate([x, y] + [0], p, false).Ok?
  {
    var s := [x, y] + [0];
    ZeroRateIsFree(3, 2, p);
    assert Sum(s) == x + y by {
      HarmonicPair(x, y);
      SumOfSnoc(Amount, [x, y], 0);
    }
    ChangeToleratesZeros(s, p);
    assert s[..2] == [x, y];
    OnlyLastIsZero(s, p);
  }

  /** Without selection a zero amount makes the outcome depend on where it stands. */
  lemma ZeroAmountsMakeOrderMatter(x: nat, y: nat)
    requires x > 0 && y > 0
    ensures var p := Params(1, 0.0, 0, 0, 0);
            && SameElements([x, y] + [0], [0] + [x, y])
            && Estimate([x, y] + [0], p, false).Ok? && Estimate([0] + [x, y], p, false).Err?
  {
    var p := Params(1, 0.0, 0, 0, 0);
    UnselectedRaises([x, y], p);
    ZeroLastIsAccepted(x, y, p);
  }

  // ---------------------------------------------------------------- exactly when order matters

  function Sign(x: nat): nat { if x == 0 then 0 else 1 }

  /** How many amounts are not zero. */
  function Positives(xs: seq<nat>): nat { SumOf(Sign, xs) }

  lemma {:induction false} SumOfPrefix(f: nat -> nat, xs: seq<nat>, j: nat)
    requires j <= |xs|
    ensures SumOf(f, xs[..j]) <= SumOf(f, xs)
  {
    if j == |xs| {
      assert xs[..j] == xs;
    } else {
      SumOfPrefix(f, xs[..|xs| - 1], j);
      assert xs[..|xs| - 1][..j] == xs[..j];
    }
  }

  lemma {:induction false} PositivesCount(xs: seq<nat>)
    ensures Positives(xs) <= |xs| && (Positives(xs) == |xs| <==> 0 !in xs)
    ensures Positives(xs) == 0 ==> Sum(xs) == 0
    ensures Positives(xs) > 0 ==> Sum(xs) > 0
  {
    if xs != [] {
      var n := |xs| - 1;
      PositivesCount(xs[..n]);
      assert xs == xs[..n] + [xs[n]];
    }
  }

  /** An estimate over inputs with a zero among them succeeds only with change and three inputs. */
  lemma ZeroIsTolerated(inputs: seq<nat>, p: Params)
    requires 0 in inputs && p.send > 0
    ensures EstimateFor(inputs, p).Ok?
            <==> |inputs| > 2 && Sum(inputs) > 0 && Sum(inputs) > p.send + FeeFor(|inputs|, 2, p)
  {
    hide FeeFor;
    if |inputs| == 1 {
      assert inputs == [0];
      EstimateForRaises(inputs, p);
    }
  }

  function Zeros(k: nat): (r: seq<nat>)
    ensures |r| == k && forall i | 0 <= i < k :: r[i] == 0
  {
    seq(k, i => 0)
  }

  function WithoutZeros(xs: seq<nat>): (r: seq<nat>)
    ensures 0 !in r
  {
    if xs == [] then []
    else if xs[|xs| - 1] == 0 then WithoutZeros(xs[..|xs| - 1])
    else WithoutZeros(xs[..|xs| - 1]) + [xs[|xs| - 1]]
  }

  /** The amounts with the zeros moved to the end. */
  function ZerosLast(xs: seq<nat>): seq<nat>
    requires Positives(xs) <= |xs|
  {
    WithoutZeros(xs) + Zeros(|xs| - Positives(xs))
  }

  lemma ZerosSnoc(k: nat)
    ensures Zeros(k + 1) == Zeros(k) + [0]
  {
  }

  lemma InsertMiddle(a: seq<nat>, x: nat, b: seq<nat>)
    ensures multiset(a + [x] + b) == multiset(a + b) + multiset{x}
  {
    assert multiset(a + [x] + b) == multiset(a) + multiset{x} + multiset(b);
    assert multiset(a + b) == multiset(a) + multiset(b);
  }

  lemma WithoutZerosSnoc(xs: seq<nat>, x: nat)
    ensures WithoutZeros(xs + [x]) == if x == 0 then WithoutZeros(xs) else WithoutZeros(xs) + [x]
    ensures Positives(xs + [x]) == if x == 0 then Positives(xs) else Positives(xs) + 1
  {
    assert (xs + [x])[..|xs|] == xs;
  }

  ghost predicate Reordered(xs: seq<nat>) {
    && Positives(xs) <= |xs| && |WithoutZeros(xs)| == Positives(xs)
    && SameElements(ZerosLast(xs), xs) && Sum(WithoutZeros(xs)) == Sum(xs)
  }

  lemma ZeroAppended(xs: seq<nat>)
    requires Reordered(xs)
    ensures Reordered(xs + [0])
  {
    WithoutZerosSnoc(xs, 0);
    SumOfSnoc(Amount, xs, 0);
    ZerosSnoc(|xs| - Positives(xs));
    hide WithoutZeros, SumOf, Positives;
    var all := ZerosLast(xs);
    assert ZerosLast(xs + [0]) == all + [0];
    assert multiset(all + [0]) == multiset(all) + multiset{0};
    assert multiset(xs + [0]) == multiset(xs) + multiset{0};
  }

  lemma PositiveAppended(xs: seq<nat>, x: nat)
    requires Reordered(xs) && x > 0
    ensures Reordered(xs + [x])
  {
    WithoutZerosSnoc(xs, x);
    SumOfSnoc(Amount, xs, x);
    SumOfSnoc(Amount, WithoutZeros(xs), x);
    var kept, zeros := WithoutZeros(xs), Zeros(|xs| - Positives(xs));
    hide WithoutZeros, SumOf, Positives;
    assert |xs + [x]| - Positives(xs + [x]) == |xs| - Positives(xs);
    assert ZerosLast(xs + [x]) == kept + [x] + zeros;
    InsertMiddle(kept, x, zeros);
    assert multiset(xs + [x]) == multiset(xs) + multiset{x};
  }

  lemma {:induction false} ZerosLastIsReordering(xs: seq<nat>)
    ensures Positives(xs) <= |xs| && |WithoutZeros(xs)| == Positives(xs)
    ensures SameElements(ZerosLast(xs), xs) && Sum(WithoutZeros(xs)) == Sum(xs)
  {
    if xs != [] {
      var n := |xs| - 1;
      ZerosLastIsReordering(xs[..n]);
      assert xs == xs[..n] + [xs[n]];
      if xs[n] == 0 {
        ZeroAppended(xs[..n]);
      } else {
        PositiveAppended(xs[..n], xs[n]);
      }
    }
  }

  lemma {:induction false} ZerosAddNothing(xs: seq<nat>, k: nat)
    ensures Sum(xs + Zeros(k)) == Sum(xs)
  {
    if k == 0 {
      assert xs + Zeros(0) == xs;
    } else {
      ZerosSnoc(k - 1);
      assert xs + Zeros(k) == (xs + Zeros(k - 1)) + [0];
      SumOfSnoc(Amount, xs + Zeros(k - 1), 0);
      ZerosAddNothing(xs, k - 1);
    }
  }

  /** The sum pays for a change output as soon as every prefix that must hold a zero does. */
  predicate ToleratesZeros(xs: seq<nat>, p: Params) {
    && Positives(xs) >= 2
    && forall j: nat | Positives(xs) < j <= |xs| :: Sum(xs) > p.send + FeeFor(j, 2, p)
  }

  /** Only `ZeroDivision` is raised for a non-empty list. */
  lemma OnlyZeroDivision(s: seq<nat>, p: Params, select: bool)
    requires s != [] && Estimate(s, p, select).Err?
    ensures Estimate(s, p, select) == Err(ZeroDivision)
  {
    var amounts := Amounts(s, select);
    assert |multiset(amounts)| == |amounts| && |multiset(s)| == |s|;
    WalkRaises(amounts, p, select, 1);
  }

  lemma {:induction false} WalkRaises(s: seq<nat>, p: Params, select: bool, k: nat)
    requires 1 <= k <= |s|
    ensures Walk(s, p, select, k).Err? ==> Walk(s, p, select, k) == Err(ZeroDivision)
    decreases |s| - k
  {
    if k < |s| { WalkRaises(s, p, select, k + 1); }
  }

  lemma UnselectedOkExactlyWhen(s: seq<nat>, p: Params)
    requires s != []
    ensures Estimate(s, p, false).Ok? <==> forall j | 1 <= j <= |s| :: EstimateFor(s[..j], p).Ok?
    ensures Estimate(s, p, false).Ok? ==> Estimate(s, p, false) == EstimateFor(s, p)
  {
    assert s[..|s|] == s;
    WalkWithoutSelection(s, p, 1);
  }

  /** With the zeros last every prefix is accepted if the sum allows it. */
  lemma ZerosLastAccepted(xs: seq<nat>, p: Params)
    requires p.send > 0 && ToleratesZeros(xs, p)
    ensures Positives(xs) <= |xs| && Estimate(ZerosLast(xs), p, false).Ok?
  {
    ZerosLastIsReordering(xs);
    PositivesCount(xs);
    var ys, m := ZerosLast(xs), Positives(xs);
    assert |ys| == |xs|;
    forall j: nat | 1 <= j <= |ys| ensures EstimateFor(ys[..j], p).Ok? {
      hide FeeFor, EstimateFor, Sum;
      if j <= m {
        assert ys[..j] == WithoutZeros(xs)[..j];
        EstimateForRaises(ys[..j], p);
      } else {
        assert ys[..j] == WithoutZeros(xs) + Zeros(j - m);
        ZerosAddNothing(WithoutZeros(xs), j - m);
        assert ys[..j][m] == 0;
        ZeroIsTolerated(ys[..j], p);
        assert Sum(xs) > p.send + FeeFor(j, 2, p);
      }
    }
    UnselectedOkExactlyWhen(ys, p);
  }

  /** A prefix longer than there are positive amounts holds a zero. */
  lemma LongPrefixHasZero(xs: seq<nat>, ys: seq<nat>, j: nat)
    requires SameElements(xs, ys) && Positives(xs) < j <= |xs|
    ensures |ys| == |xs| && 0 in ys[..j] && Sum(ys[..j]) <= Sum(xs)
  {
    SumOfSameElements(Sign, xs, ys);
    SumOfSameElements(Amount, xs, ys);
    SumOfPrefix(Sign, ys, j);
    SumOfPrefix(Amount, ys, j);
    PositivesCount(ys[..j]);
  }

  lemma AcceptedPrefix(xs: seq<nat>, ys: seq<nat>, p: Params, j: nat)
    requires SameElements(xs, ys) && p.send > 0 && Positives(xs) < j <= |xs|
    requires |ys| == |xs| && EstimateFor(ys[..j], p).Ok?
    ensures j > 2 && Sum(xs) > p.send + FeeFor(j, 2, p)
  {
    LongPrefixHasZero(xs, ys, j);
    hide FeeFor, EstimateFor, Sum, Positives;
    ZeroIsTolerated(ys[..j], p);
  }

  /** An order that is accepted although there is a zero shows that the sum allows it. */
  lemma AcceptedTolerates(xs: seq<nat>, ys: seq<nat>, p: Params)
    requires SameElements(xs, ys) && 0 in xs && p.send > 0 && Estimate(ys, p, false).Ok?
    ensures ToleratesZeros(xs, p)
  {
    PositivesCount(xs);
    SameLength(xs, ys);
    UnselectedOkExactlyWhen(ys, p);
    hide FeeFor, EstimateFor, Sum, Positives, Estimate;
    AcceptedPrefix(xs, ys, p, Positives(xs) + 1);
    forall j: nat | Positives(xs) < j <= |xs| ensures Sum(xs) > p.send + FeeFor(j, 2, p) {
      AcceptedPrefix(xs, ys, p, j);
    }
  }

  lemma NoSendRaises(s: seq<nat>, p: Params)
    requires s != [] && p.send == 0
    ensures Estimate(s, p, false).Err?
  {
    EstimateForRaises(s, p);
  }

  /** Some order of the amounts is accepted, without selection. */
  ghost predicate SomeOrderAccepted(xs: seq<nat>, p: Params) {
    exists ys: seq<nat> :: SameElements(xs, ys) && Estimate(ys, p, false).Ok?
  }

  /** Without selection, two orders of the same amounts are estimated differently. */
  ghost predicate OrderMatters(xs: seq<nat>, p: Params) {
    exists ys: seq<nat>, zs: seq<nat> ::
      SameElements(xs, ys) && SameElements(xs, zs) && Estimate(ys, p, false) != Estimate(zs, p, false)
  }

  /** An amount list with a zero has an order that is accepted exactly when its sum allows it. */
  lemma SomeOrderAcceptedExactlyWhen(xs: seq<nat>, p: Params)
    requires 0 in xs
    ensures SomeOrderAccepted(xs, p) <==> p.send > 0 && ToleratesZeros(xs, p)
  {
    hide Estimate, ToleratesZeros;
    if p.send > 0 && ToleratesZeros(xs, p) {
      ZerosLastAccepted(xs, p);
      ZerosLastIsReordering(xs);
    }
    if SomeOrderAccepted(xs, p) {
      var ys: seq<nat> :| SameElements(xs, ys) && Estimate(ys, p, false).Ok?;
      SameLength(xs, ys);
      if p.send == 0 {
        NoSendRaises(ys, p);
      } else {
        AcceptedTolerates(xs, ys, p);
      }
    }
  }

  lemma SameLength(xs: seq<nat>, ys: seq<nat>)
    requires SameElements(xs, ys)
    ensures |xs| == |ys|
  {
    assert |multiset(xs)| == |xs| && |multiset(ys)| == |ys|;
  }

  lemma ZeroFirst(xs: seq<nat>) returns (rest: seq<nat>)
    requires 0 in xs
    ensures SameElements(xs, [0] + rest)
  {
    var i :| 0 <= i < |xs| && xs[i] == 0;
    rest := xs[..i] + xs[i + 1..];
    assert xs == xs[..i] + [0] + xs[i + 1..];
  }

  /** Two orders of the same amounts can only differ in whether they raise. */
  lemma OrdersDifferInRaising(xs: seq<nat>, ys: seq<nat>, p: Params)
    requires SameElements(xs, ys) && xs != []
    requires Estimate(xs, p, false).Ok? <==> Estimate(ys, p, false).Ok?
    ensures Estimate(xs, p, false) == Estimate(ys, p, false)
  {
    SameLength(xs, ys);
    hide EstimateFor, Estimate;
    if Estimate(xs, p, false).Ok? {
      UnselectedOkExactlyWhen(xs, p);
      UnselectedOkExactlyWhen(ys, p);
      EstimateSameElements(xs, ys, p);
    } else {
      OnlyZeroDivision(xs, p, false);
      OnlyZeroDivision(ys, p, false);
    }
  }

  /**
   Without selection the order of the amounts matters exactly when something is sent, there is a
   zero among at least two positive amounts, and the sum pays for a change output with as many
   inputs as it takes to meet a zero: then the zeros raise when they come first and not when last.
   */
  lemma OrderMattersExactlyWhen(xs: seq<nat>, p: Params)
    ensures OrderMatters(xs, p) <==> p.send > 0 && 0 in xs && ToleratesZeros(xs, p)
  {
    hide Estimate, ToleratesZeros;
    if OrderMatters(xs, p) {
      var ys: seq<nat>, zs: seq<nat> :|
        SameElements(xs, ys) && SameElements(xs, zs) && Estimate(ys, p, false) != Estimate(zs, p, false);
      SameLength(xs, ys);
      SameLength(xs, zs);
      if xs != [] {
        if Estimate(ys, p, false).Ok? <==> Estimate(zs, p, false).Ok? {
          OrdersDifferInRaising(ys, zs, p);
        }
        assert SomeOrderAccepted(xs, p);
        if 0 in xs {
          SomeOrderAcceptedExactlyWhen(xs, p);
        } else {
          ZeroMoves(xs, ys);
          NoZeroSameOrder(ys, zs, p);
        }
      }
    }
    if p.send > 0 && 0 in xs && ToleratesZeros(xs, p) {
      ZerosLastAccepted(xs, p);
      ZerosLastIsReordering(xs);
      var rest := ZeroFirst(xs);
      UnselectedRaises(rest, p);
      assert Estimate(ZerosLast(xs), p, false) != Estimate([0] + rest, p, false);
    }
  }

  lemma ZeroMoves(xs: seq<nat>, ys: seq<nat>)
    requires SameElements(xs, ys)
    ensures 0 in xs <==> 0 in ys
  {
    assert 0 in xs <==> 0 in multiset(xs);
    assert 0 in ys <==> 0 in multiset(ys);
  }

  lemma NoZeroSameOrder(ys: seq<nat>, zs: seq<nat>, p: Params)
    requires SameElements(ys, zs) && ys != [] && 0 !in ys
    ensures Estimate(ys, p, false) == Estimate(zs, p, false)
  {
    SameLength(ys, zs);
    if p.send == 0 {
      NoSendRaises(ys, p);
      NoSendRaises(zs, p);
      OrdersDifferInRaising(ys, zs, p);
    } else {
      PositiveOrderDoesNotMatter(ys, zs, p, false);
    }
  }

  /**
   In every other case, and always with selection, the outcome, raised or not, depends only on the
   multiset of UTXOs.
   */
  lemma OrderDoesNotMatter(xs: seq<nat>, ys: seq<nat>, p: Params, select: bool)
    requires SameElements(xs, ys)
    requires select || !(p.send > 0 && 0 in xs && ToleratesZeros(xs, p))
    ensures Estimate(xs, p, select) == Estimate(ys, p, select)
  {
    hide Estimate, ToleratesZeros;
    if select {
      PositiveOrderDoesNotMatter(xs, ys, p, true);
    } else {
      OrderMattersExactlyWhen(xs, p);
      assert SameElements(xs, xs);
    }
  }

  /** A fee never falls with another input at a non-negative rate. */
  lemma {:induction false} FeeGrows(n: nat, m: nat, p: Params)
    requires n <= m && p.feerate >= 0.0
    ensures FeeFor(n, 2, p) <= FeeFor(m, 2, p)
  {
    MassForIsAffine(n, 2, p);
    MassForIsAffine(m, 2, p);
    PriceStep(MassFor(n, 2, p), 1118 * (m - n), p.feerate);
  }

  /** At a non-negative rate one comparison of the whole sum decides. */
  lemma OrderMattersAtNonNegativeRates(xs: seq<nat>, p: Params)
    requires p.feerate >= 0.0
    ensures OrderMatters(xs, p)
            <==> p.send > 0 && 0 in xs && Positives(xs) >= 2 && Sum(xs) > p.send + FeeFor(|xs|, 2, p)
  {
    hide FeeFor, OrderMatters, Sum;
    OrderMattersExactlyWhen(xs, p);
    PositivesCount(xs);
    if 0 in xs && Sum(xs) > p.send + FeeFor(|xs|, 2, p) {
      forall j: nat | Positives(xs) < j <= |xs| ensures Sum(xs) > p.send + FeeFor(j, 2, p) {
        FeeGrows(j, |xs|, p);
      }
    }
  }

  // ---------------------------------------------------------------- the valley of surpluses

  /** The price of one more input, rounded up; rounded down it is at most 1 less. */
  function InputPrice(p: Params): int { Price(1118, p.feerate) }

  lemma FeeStep(n: nat, p: Params)
    ensures InputPrice(p) - 1 <= FeeFor(n + 1, 1, p) - FeeFor(n, 1, p) <= InputPrice(p)
  {
    MassForIsAffine(n, 1, p);
    MassForIsAffine(n + 1, 1, p);
    PriceStep(MassFor(n, 1, p), 1118, p.feerate);
  }

  lemma SurplusStep(s: seq<nat>, p: Params, k: nat)
    requires k < |s|
    ensures var rise := Surplus(s[..k + 1], p) - Surplus(s[..k], p);
            && (rise > 0 ==> s[k] >= InputPrice(p))
            && (s[k] >= InputPrice(p) ==> rise >= 0)
  {
    FeeStep(k, p);
    assert s[..k + 1] == s[..k] + [s[k]];
    SumOfSnoc(Amount, s[..k], s[k]);
  }

  /** Along sorted prefixes the surplus falls, then rises: after one rise it never falls again. */
  lemma SurplusIsAValley(s: seq<nat>, p: Params, i: nat, j: nat)
    requires Ascending(s) && i < j < |s|
    requires Surplus(s[..i + 1], p) > Surplus(s[..i], p)
    ensures Surplus(s[..j + 1], p) >= Surplus(s[..j], p)
  {
    SurplusStep(s, p, i);
    SurplusStep(s, p, j);
  }

  lemma {:induction false} CoveredPrefixEndsRising(s: seq<nat>, p: Params, k: nat)
    requires Ascending(s) && 1 <= k <= |s|
    requires Surplus([], p) < 0 <= Surplus(s[..k], p)
    ensures s[k - 1] >= InputPrice(p)
  {
    SurplusStep(s, p, k - 1);
    if Surplus(s[..k - 1], p) >= 0 {
      assert s[..0] == [];
      CoveredPrefixEndsRising(s, p, k - 1);
    }
  }

  /** Coverage, once reached, is never lost by longer prefixes. */
  lemma {:induction false} CoverageIsKept(s: seq<nat>, p: Params, k: nat, m: nat)
    requires Ascending(s) && 1 <= k <= m <= |s|
    requires Surplus([], p) < 0 <= Surplus(s[..k], p)
    ensures Surplus(s[..m], p) >= Surplus(s[..k], p)
    decreases m
  {
    if k < m {
      CoverageIsKept(s, p, k, m - 1);
      CoveredPrefixEndsRising(s, p, k);
      SurplusStep(s, p, m - 1);
    }
  }

  lemma PriceNotNegative(m: nat, f: real)
    requires f >= 0.0
    ensures Price(m, f) >= 0
    ensures f == 0.0 ==> Price(m, f) == 0
  {
    TimesAdds(0, m, f);
  }

  lemma NothingCoversNothing(p: Params)
    requires p.feerate >= 0.0 && p.priorityFee >= 0 && p.send > 0
    ensures Surplus([], p) < 0
  {
    PriceNotNegative(MassFor(0, 1, p), p.feerate);
  }

  /**
   If selection returns an estimate whose inputs do not cover send plus fee, then no
   smallest-first prefix of the UTXOs covers it.
   */
  lemma UncoveredMeansNoPrefixCovers(utxos: seq<nat>, p: Params, k: nat)
    requires p.feerate >= 0.0 && p.priorityFee >= 0
    requires Estimate(utxos, p, true).Ok? && Estimate(utxos, p, true).value.change < 0
    requires 1 <= k <= |utxos|
    ensures |Sorted(utxos)| == |utxos|
    ensures EstimateFor(Sorted(utxos)[..k], p).Ok? && EstimateFor(Sorted(utxos)[..k], p).value.change < 0
  {
    var s := Sorted(utxos);
    SortedAscends(utxos);
    RaisesExactlyOnZeros(utxos, p, true);
    assert 0 !in s by { assert 0 in s ==> 0 in multiset(s); assert 0 in multiset(utxos) ==> 0 in utxos; }
    SelectionIsShortestPrefix(utxos, p);
    var m := Estimate(utxos, p, true).value.nInputs;
    CoversIffSurplus(s[..m], p);
    assert m == |s|;
    EstimateForRaises(s[..k], p);
    CoversIffSurplus(s[..k], p);
    NothingCoversNothing(p);
    if Surplus(s[..k], p) >= 0 {
      CoverageIsKept(s, p, k, m);
    }
  }

  // ---------------------------------------------------------------- is "insufficient" right?

  /** Both coins are taken, and still do not cover, when neither the first nor both cover. */
  lemma PairIsExhausted(x: nat, y: nat, p: Params)
    requires 0 < x <= y && p.send > 0 && p.feerate >= 0.0
    requires Surplus([x], p) < 0 && Surplus([x, y], p) < 0
    ensures Estimate([x, y], p, true).Ok? && Estimate([x, y], p, true).value.change < 0
  {
    hide Sorted, Surplus, EstimateFor, Sum;
    var s := [x, y];
    assert Sorted(s) == s by {
      SortedAscends(s);
      AscendingIsUnique(Sorted(s), s);
    }
    assert s[..1] == [x] && s[..2] == s;
    EstimateForRaises(s, p);
    EstimateForRaises([x], p);
    CoversIffSurplus([x], p);
    CoversIffSurplus(s, p);
    assert Walk(s, p, true, 2) == EstimateFor(s, p);
  }

  /**
   A negative change is documented as insufficient funds. It is not: dust inputs cost more
   than they bring, and the larger coin alone would have paid.
   */
  lemma InsufficientDespiteCoveringCoin()
    ensures var p := Params(1, 1.0, 0, 34, 0);
            && Estimate([1, 1625], p, true).Ok? && Estimate([1, 1625], p, true).value.change < 0
            && EstimateFor([1625], p).Ok? && EstimateFor([1625], p).value.change >= 0
  {
    hide Surplus, EstimateFor, Estimate;
    var p := Params(1, 1.0, 0, 34, 0);
    DustSurpluses(p);
    PairIsExhausted(1, 1625, p);
    EstimateForRaises([1625], p);
    CoversIffSurplus([1625], p);
  }

  lemma DustSurpluses(p: Params)
    requires p == Params(1, 1.0, 0, 34, 0)
    ensures Surplus([1], p) < 0 && Surplus([1, 1625], p) < 0 && Surplus([1625], p) == 0
  {
    hide FeeFor;
    FeesAtUnitRate(1, p);
    FeesAtUnitRate(2, p);
    SumOfSnoc(Amount, [], 1);
    SumOfSnoc(Amount, [], 1625);
    assert [1] == [] + [1] && [1625] == [] + [1625];
    HarmonicPair(1, 1625);
  }

  lemma FeesAtUnitRate(n: nat, p: Params)
    requires p == Params(1, 1.0, 0, 34, 0)
    ensures FeeFor(n, 1, p) == 506 + 1118 * n && FeeFor(n, 2, p) == 918 + 1118 * n
  {
    MassForIsAffine(n, 1, p);
    MassForIsAffine(n, 2, p);
    UnitRate(MassFor(n, 1, p));
    UnitRate(MassFor(n, 2, p));
  }

  lemma UnitRate(m: nat)
    ensures Price(m, 1.0) == m
  {
    TimesIsProduct(m, 1.0);
  }

  lemma {:induction false} MoreInputsMoreSurplus(xs: seq<nat>, ys: seq<nat>, p: Params)
    requires forall y | y in ys :: y >= InputPrice(p)
    ensures Surplus(xs, p) <= Surplus(xs + ys, p)
  {
    if ys == [] {
      assert xs + ys == xs;
    } else {
      var n := |ys| - 1;
      assert xs + ys == (xs + ys[..n]) + [ys[n]];
      assert (xs + ys)[..|xs| + n] == xs + ys[..n] && (xs + ys)[..|xs| + n + 1] == xs + ys;
      SurplusStep(xs + ys, p, |xs| + n);
      assert ys[n] in ys && forall y | y in ys[..n] :: y in ys;
      MoreInputsMoreSurplus(xs, ys[..n], p);
    }
  }

  /** Without dust the verdict is right for every choice of coins, not just sorted prefixes. */
  lemma InsufficientWithoutDust(utxos: seq<nat>, chosen: seq<nat>, others: seq<nat>, p: Params)
    requires p.feerate >= 0.0 && p.priorityFee >= 0
    requires SameElements(chosen + others, utxos) && chosen != []
    requires forall u | u in others :: u >= InputPrice(p)
    requires Estimate(utxos, p, true).Ok? && Estimate(utxos, p, true).value.change < 0
    ensures EstimateFor(chosen, p).Ok? && EstimateFor(chosen, p).value.change < 0
  {
    var s := Sorted(utxos);
    assert |multiset(chosen + others)| == |chosen + others| && |multiset(utxos)| == |utxos|;
    UncoveredMeansNoPrefixCovers(utxos, p, |utxos|);
    assert s[..|utxos|] == s;
    RaisesExactlyOnZeros(utxos, p, true);
    assert 0 in chosen ==> 0 in chosen + others;
    assert 0 in multiset(chosen + others) ==> 0 in utxos;
    EstimateForRaises(chosen, p);
    EstimateSameElements(chosen + others, s, p);
    CoversIffSurplus(chosen + others, p);
    CoversIffSurplus(chosen, p);
    MoreInputsMoreSurplus(chosen, others, p);
  }

  // ---------------------------------------------------------------- the exact verdict

  /** Dropping dust never lowers the surplus. */
  lemma {:induction false} DustNeverHelps(xs: seq<nat>, ys: seq<nat>, p: Params)
    requires forall y | y in ys :: y < InputPrice(p)
    ensures Surplus(xs + ys, p) <= Surplus(xs, p)
  {
    if ys == [] {
      assert xs + ys == xs;
    } else {
      var n := |ys| - 1;
      assert xs + ys == (xs + ys[..n]) + [ys[n]];
      assert (xs + ys)[..|xs| + n] == xs + ys[..n] && (xs + ys)[..|xs| + n + 1] == xs + ys;
      SurplusStep(xs + ys, p, |xs| + n);
      assert ys[n] in ys && forall y | y in ys[..n] :: y in ys;
      DustNeverHelps(xs, ys[..n], p);
    }
  }

  /** The coins that pay for their own input, and the others. */
  function Sifted(xs: seq<nat>, p: Params): (r: (seq<nat>, seq<nat>))
    ensures forall x | x in r.0 :: x >= InputPrice(p)
    ensures forall x | x in r.1 :: x < InputPrice(p)
  {
    if xs == [] then ([], [])
    else
      var n := |xs| - 1;
      var (paying, dust) := Sifted(xs[..n], p);
      if xs[n] >= InputPrice(p) then (paying + [xs[n]], dust) else (paying, dust + [xs[n]])
  }

  function PayingCoins(xs: seq<nat>, p: Params): seq<nat> { Sifted(xs, p).0 }

  lemma {:induction false} SiftedCounts(xs: seq<nat>, p: Params, u: nat)
    ensures multiset(PayingCoins(xs, p))[u] == if u >= InputPrice(p) then multiset(xs)[u] else 0
    ensures multiset(Sifted(xs, p).1)[u] == if u < InputPrice(p) then multiset(xs)[u] else 0
  {
    if xs != [] {
      var n := |xs| - 1;
      hide InputPrice;
      SiftedCounts(xs[..n], p, u);
      assert xs == xs[..n] + [xs[n]];
    }
  }

  lemma SiftedIsAll(xs: seq<nat>, p: Params)
    ensures SameElements(PayingCoins(xs, p) + Sifted(xs, p).1, xs)
  {
    hide InputPrice, Sifted, PayingCoins;
    forall u: nat ensures multiset(PayingCoins(xs, p) + Sifted(xs, p).1)[u] == multiset(xs)[u] {
      SiftedCounts(xs, p, u);
      assert multiset(PayingCoins(xs, p) + Sifted(xs, p).1) == multiset(PayingCoins(xs, p)) + multiset(Sifted(xs, p).1);
    }
  }

  lemma PayingCoinsOfParts(xs: seq<nat>, ys: seq<nat>, all: seq<nat>, p: Params)
    requires SameElements(xs + ys, all)
    ensures SameElements(PayingCoins(xs, p) + PayingCoins(ys, p), PayingCoins(all, p))
  {
    hide InputPrice, PayingCoins;
    assert multiset(xs + ys) == multiset(xs) + multiset(ys);
    assert multiset(PayingCoins(xs, p) + PayingCoins(ys, p)) == multiset(PayingCoins(xs, p)) + multiset(PayingCoins(ys, p));
    forall u: nat ensures multiset(PayingCoins(xs, p) + PayingCoins(ys, p))[u] == multiset(PayingCoins(all, p))[u] {
      SiftedCounts(xs, p, u);
      SiftedCounts(ys, p, u);
      SiftedCounts(all, p, u);
    }
  }

  lemma SurplusSameElements(xs: seq<nat>, ys: seq<nat>, p: Params)
    requires SameElements(xs, ys)
    ensures Surplus(xs, p) == Surplus(ys, p)
  {
    hide FeeFor, SumOf;
    SumOfSameElements(Amount, xs, ys);
  }

  /** No choice of coins has a larger surplus than the coins that pay for their own input. */
  lemma PayingCoinsAreBest(utxos: seq<nat>, chosen: seq<nat>, others: seq<nat>, p: Params)
    requires SameElements(chosen + others, utxos)
    ensures Surplus(chosen, p) <= Surplus(PayingCoins(utxos, p), p)
  {
    hide Surplus, InputPrice;
    var (paying, dust) := Sifted(chosen, p);
    var rest := PayingCoins(others, p);
    SiftedIsAll(chosen, p);
    SurplusSameElements(paying + dust, chosen, p);
    DustNeverHelps(paying, dust, p);
    MoreInputsMoreSurplus(paying, rest, p);
    PayingCoinsOfParts(chosen, others, utxos, p);
    SurplusSameElements(paying + rest, PayingCoins(utxos, p), p);
  }

  ghost predicate SomeChoiceCovers(utxos: seq<nat>, p: Params) {
    exists chosen: seq<nat>, others: seq<nat> :: SameElements(chosen + others, utxos) && Surplus(chosen, p) >= 0
  }

  /** Some choice of coins covers exactly when the coins worth at least the input price do together. */
  lemma CoverableExactlyWhen(utxos: seq<nat>, p: Params)
    ensures SomeChoiceCovers(utxos, p) <==> Surplus(PayingCoins(utxos, p), p) >= 0
  {
    hide Surplus;
    if SomeChoiceCovers(utxos, p) {
      var chosen: seq<nat>, others: seq<nat> :| SameElements(chosen + others, utxos) && Surplus(chosen, p) >= 0;
      PayingCoinsAreBest(utxos, chosen, others, p);
    }
    if Surplus(PayingCoins(utxos, p), p) >= 0 {
      SiftedIsAll(utxos, p);
      assert SameElements(PayingCoins(utxos, p) + Sifted(utxos, p).1, utxos);
    }
  }

  /** Selection reports a negative change exactly when all coins together do not cover. */
  lemma NegativeExactlyWhen(utxos: seq<nat>, p: Params)
    requires p.feerate >= 0.0 && p.priorityFee >= 0 && Estimate(utxos, p, true).Ok?
    ensures Estimate(utxos, p, true).value.change < 0 <==> Surplus(utxos, p) < 0
  {
    var s := Sorted(utxos);
    SelectionIsShortestPrefix(utxos, p);
    RaisesExactlyOnZeros(utxos, p, true);
    SurplusSameElements(s, utxos, p);
    NothingCoversNothing(p);
    SortedAscends(utxos);
    var m := Estimate(utxos, p, true).value.nInputs;
    assert s[..|s|] == s;
    hide Estimate, EstimateFor, Surplus, Sorted;
    CoversIffSurplus(s[..m], p);
    if Surplus(s[..m], p) >= 0 {
      CoverageIsKept(s, p, m, |s|);
    }
  }

  /**
   The verdict "insufficient funds" is wrong exactly when all coins together fall short while
   those that pay for their own input do not.
   */
  lemma VerdictIsWrongExactlyWhen(utxos: seq<nat>, p: Params)
    requires p.feerate >= 0.0 && p.priorityFee >= 0 && Estimate(utxos, p, true).Ok?
    ensures Estimate(utxos, p, true).value.change < 0 && SomeChoiceCovers(utxos, p)
            <==> Surplus(utxos, p) < 0 <= Surplus(PayingCoins(utxos, p), p)
  {
    hide Estimate, Surplus, SomeChoiceCovers;
    NegativeExactlyWhen(utxos, p);
    CoverableExactlyWhen(utxos, p);
  }
}
