/**
 Transaction masses of the Kaspa fee estimator and the laws of the two KIP-9 storage-mass
 formulas. Amounts are natural numbers of sompi; Python's `//` on them is Dafny's `/`.
 */
module KaspaMass {
  import opened Common

  const MASS_PER_TX_BYTE := 1
  const MASS_PER_SCRIPT_PUB_KEY_BYTE := 10
  const MASS_PER_SIG_OP := 1000
  const STORAGE_MASS_PARAMETER := 1_000_000_000_000
  const SUBNETWORK_ID_SIZE := 20
  const HASH_SIZE := 32
  const SIGNATURE_SCRIPT_SIZE := 66
  const SIG_OPS_PER_INPUT := 1
  const TX_FIXED_OVERHEAD := 2 + 8 + 8 + 8 + SUBNETWORK_ID_SIZE + 8 + HASH_SIZE + 8

  datatype FeeError = NoUtxos | ZeroDivision

  // ---------------------------------------------------------------- sums over lists

  /** Python's `sum(f(x) for x in xs)`. */
  function SumOf(f: nat -> nat, xs: seq<nat>): nat {
    if xs == [] then 0 else SumOf(f, xs[..|xs| - 1]) + f(xs[|xs| - 1])
  }

  function Amount(x: nat): nat { x }

  /** `C // x`; a zero amount never gets here in the code, it raises first. */
  function Reciprocal(x: nat): nat {
    if x == 0 then 0 else STORAGE_MASS_PARAMETER / x
  }

  function Sum(xs: seq<nat>): nat { SumOf(Amount, xs) }

  function Harmonic(xs: seq<nat>): nat { SumOf(Reciprocal, xs) }

  lemma SumOfSnoc(f: nat -> nat, xs: seq<nat>, x: nat)
    ensures SumOf(f, xs + [x]) == SumOf(f, xs) + f(x)
  {
    assert (xs + [x])[..|xs|] == xs;
  }

  lemma {:induction false} SumOfRemove(f: nat -> nat, xs: seq<nat>, i: nat)
    requires i < |xs|
    ensures SumOf(f, xs) == SumOf(f, xs[..i] + xs[i + 1..]) + f(xs[i])
  {
    var n := |xs| - 1;
    if i == n {
      assert xs[..i] + xs[i + 1..] == xs[..n];
    } else {
      SumOfRemove(f, xs[..n], i);
      assert xs[..i] + xs[i + 1..] == (xs[..n][..i] + xs[..n][i + 1..]) + [xs[n]];
      SumOfSnoc(f, xs[..n][..i] + xs[..n][i + 1..], xs[n]);
    }
  }

  /** Both lists lose one occurrence of the last element of the first. */
  lemma DropCommonElement(xs: seq<nat>, ys: seq<nat>) returns (i: nat)
    requires xs != [] && SameElements(xs, ys)
    ensures i < |ys| && ys[i] == xs[|xs| - 1]
    ensures SameElements(xs[..|xs| - 1], ys[..i] + ys[i + 1..])
  {
    var n := |xs| - 1;
    var x := xs[n];
    assert xs == xs[..n] + [x];
    assert x in multiset(ys);
    i :| 0 <= i < |ys| && ys[i] == x;
    assert ys == ys[..i] + [x] + ys[i + 1..];
    var a, b := ys[..i], ys[i + 1..];
    assert multiset(ys) == multiset(a) + multiset{x} + multiset(b);
    assert multiset(a + b) == multiset(a) + multiset(b) == multiset(ys) - multiset{x};
    assert multiset(xs[..n]) == multiset(xs) - multiset{x};
  }

  /** A sum does not depend on the order of its terms. */
  lemma {:induction false} SumOfSameElements(f: nat -> nat, xs: seq<nat>, ys: seq<nat>)
    requires SameElements(xs, ys)
    ensures |xs| == |ys| && SumOf(f, xs) == SumOf(f, ys)
  {
    assert |xs| == |ys| by { assert |multiset(xs)| == |xs| && |multiset(ys)| == |ys|; }
    if xs != [] {
      var i := DropCommonElement(xs, ys);
      SumOfSameElements(f, xs[..|xs| - 1], ys[..i] + ys[i + 1..]);
      SumOfRemove(f, ys, i);
    }
  }

  // ---------------------------------------------------------------- compute mass

  function InputSerializedSize(): nat { 32 + 4 + 8 + SIGNATURE_SCRIPT_SIZE + 8 }

  function OutputSerializedSize(scriptLen: nat): nat { 8 + 2 + 8 + scriptLen }

  function ScriptMassBytes(scriptLen: nat): nat { 2 + scriptLen }

  function SerializedSize(nInputs: nat, scriptLens: seq<nat>, payloadLen: nat): nat {
    TX_FIXED_OVERHEAD + payloadLen + nInputs * InputSerializedSize()
    + SumOf(OutputSerializedSize, scriptLens)
  }

  function ComputeMass(nInputs: nat, scriptLens: seq<nat>, payloadLen: nat): nat {
    SerializedSize(nInputs, scriptLens, payloadLen) * MASS_PER_TX_BYTE
    + SumOf(ScriptMassBytes, scriptLens) * MASS_PER_SCRIPT_PUB_KEY_BYTE
    + nInputs * SIG_OPS_PER_INPUT * MASS_PER_SIG_OP
  }

  /** Mass is additive: every input weighs 1118 grams, every output 38 + 11 * script length. */
  lemma {:induction false} ComputeMassIsAffine(nInputs: nat, scriptLens: seq<nat>, payloadLen: nat)
    ensures ComputeMass(nInputs, scriptLens, payloadLen)
         == 94 + payloadLen + 1118 * nInputs + 38 * |scriptLens| + 11 * Sum(scriptLens)
  {
    OutputMassIsAffine(scriptLens);
  }

  lemma {:induction false} OutputMassIsAffine(scriptLens: seq<nat>)
    ensures SumOf(OutputSerializedSize, scriptLens) == 18 * |scriptLens| + Sum(scriptLens)
    ensures SumOf(ScriptMassBytes, scriptLens) == 2 * |scriptLens| + Sum(scriptLens)
  {
    if scriptLens != [] { OutputMassIsAffine(scriptLens[..|scriptLens| - 1]); }
  }

  // ---------------------------------------------------------------- storage mass

  predicate UsesRelaxedFormula(nIn: nat, nOut: nat) {
    nOut <= nIn <= 2 || nOut == 1
  }

  function RelaxedMass(ins: seq<nat>, outs: seq<nat>): nat {
    Max(0, Harmonic(outs) - Harmonic(ins))
  }

  /** `C * n**2 // sum(ins)`, the arithmetic-mean term. */
  function MeanTerm(n: nat, total: nat): nat
    requires total > 0
  {
    STORAGE_MASS_PARAMETER * (n * n) / total
  }

  function StandardMass(ins: seq<nat>, outs: seq<nat>): nat
    requires Sum(ins) > 0
  {
    Max(0, Harmonic(outs) - MeanTerm(|ins|, Sum(ins)))
  }

  function StorageMass(ins: seq<nat>, outs: seq<nat>): Result<nat, FeeError> {
    if 0 in outs then Err(ZeroDivision)
    else if UsesRelaxedFormula(|ins|, |outs|) then
      if 0 in ins then Err(ZeroDivision) else Ok(RelaxedMass(ins, outs))
    else if Sum(ins) == 0 then Err(ZeroDivision)
    else Ok(StandardMass(ins, outs))
  }

  // ---------------------------------------------------------------- division facts

  lemma DivisionBounds(a: nat, b: nat)
    requires b > 0
    ensures a / b * b <= a < (a / b + 1) * b
  {
    assert a == a / b * b + a % b;
    assert (a / b + 1) * b == a / b * b + b;
  }

  /** `q <= a // b` exactly when `q * b <= a`. */
  lemma QuotientAtLeast(q: nat, a: nat, b: nat)
    requires b > 0
    ensures q <= a / b <==> q * b <= a
  {
    DivisionBounds(a, b);
    if q <= a / b {
      MulMonotone(q, a / b, b);
    } else {
      MulMonotone(a / b + 1, q, b);
    }
  }

  lemma MulMonotone(a: int, b: int, c: nat)
    requires a <= b
    ensures a * c <= b * c
  {
    assert (b - a) * c >= 0;
  }

  lemma CancelFactor(a: int, b: int, c: nat)
    requires c > 0 && a * c <= b * c
    ensures a <= b
  {
    assert (b + 1) * c == b * c + c;
    if a > b { MulMonotone(b + 1, a, c); }
  }

  /** Dividing two fractions' order out: p/q <= r/s gives floor(p/q) <= floor(r/s). */
  lemma FloorMonotone(p: nat, q: nat, r: nat, s: nat)
    requires q > 0 && s > 0 && p * s <= r * q
    ensures p / q <= r / s
  {
    DivisionBounds(p, q);
    var k := p / q;
    calc {
      k * s * q;
      k * q * s;
      <= { MulMonotone(k * q, p, s); }
      p * s;
      <= r * q;
    }
    CancelFactor(k * s, r, q);
    QuotientAtLeast(k, r, s);
  }

  // ---------------------------------------------------------------- the two formulas compared

  lemma {:induction false} SumPositive(xs: seq<nat>)
    requires xs != [] && 0 !in xs
    ensures Sum(xs) > 0
  {
  }

  lemma SquaresFact(a: int, b: int)
    ensures (a + b) * (a + b) >= 4 * (a * b)
  {
    assert (a + b) * (a + b) - 4 * (a * b) == (a - b) * (a - b);
    assert (a - b) * (a - b) >= 0;
  }

  /** The cross terms of one induction step of the arithmetic-harmonic mean inequality. */
  lemma CrossTerms(P: nat, S: nat, p: nat, x: nat, n: nat, c: nat)
    requires P * S > c * (n * n) && p * x > c
    ensures P * x + p * S >= 2 * (n * c)
  {
    var a, b, m := P * x, p * S, n * c;
    assert a * b == (P * S) * (p * x) by {
      assert P * x * (p * S) == P * S * (p * x);
    }
    ProductAtLeastSquare(P * S, p * x, n, c);
    SquaresFact(a, b);
    SquareRootMonotone(2 * m, a + b);
  }

  lemma ProductAtLeastSquare(u: nat, v: nat, n: nat, c: nat)
    requires u >= c * (n * n) && v >= c
    ensures u * v >= (n * c) * (n * c)
  {
    MulMonotone(c * (n * n), u, v);
    MulMonotone(c, v, c * (n * n));
    assert c * (c * (n * n)) == (n * c) * (n * c);
  }

  lemma SquareRootMonotone(a: nat, b: nat)
    requires a * a <= b * b
    ensures a <= b
  {
    if a > b {
      MulMonotone(b, a, b);
      MulMonotone(b + 1, a, a);
    }
  }

  /** Every floored quotient plus one overshoots, so the product of the sums beats C * n^2. */
  lemma {:induction false} MeanInequalityProduct(xs: seq<nat>)
    requires xs != [] && 0 !in xs
    ensures (Harmonic(xs) + |xs|) * Sum(xs) > STORAGE_MASS_PARAMETER * (|xs| * |xs|)
  {
    var n, C := |xs| - 1, STORAGE_MASS_PARAMETER;
    var x, init := xs[n], xs[..n];
    var p := C / x + 1;
    DivisionBounds(C, x);
    if n > 0 {
      MeanInequalityProduct(init);
      var P, S := Harmonic(init) + n, Sum(init);
      CrossTerms(P, S, p, x, n, C);
      assert (P + p) * (S + x) == P * S + (P * x + p * S) + p * x;
      assert C * ((n + 1) * (n + 1)) == C * (n * n) + 2 * (n * C) + C;
      assert Harmonic(xs) + |xs| == P + p && Sum(xs) == S + x;
    } else {
      assert xs == [] + [x];
      SumOfSnoc(Amount, [], x);
      SumOfSnoc(Reciprocal, [], x);
    }
  }

  /** The floored arithmetic-harmonic mean inequality for any number of positive inputs. */
  lemma FlooredMeanInequality(xs: seq<nat>)
    requires xs != [] && 0 !in xs
    ensures Sum(xs) > 0
    ensures MeanTerm(|xs|, Sum(xs)) <= Harmonic(xs) + |xs| - 1
  {
    SumPositive(xs);
    MeanInequalityProduct(xs);
    QuotientAtLeast(Harmonic(xs) + |xs|, STORAGE_MASS_PARAMETER * (|xs| * |xs|), Sum(xs));
  }

  lemma RelaxedAtMostStandard(ins: seq<nat>, outs: seq<nat>)
    requires ins != [] && 0 !in ins
    ensures Sum(ins) > 0
    ensures RelaxedMass(ins, outs) <= StandardMass(ins, outs) + |ins| - 1
    ensures |ins| == 1 ==> RelaxedMass(ins, outs) == StandardMass(ins, outs)
  {
    FlooredMeanInequality(ins);
    if |ins| == 1 {
      assert ins == [] + [ins[0]];
      SumOfSnoc(Amount, [], ins[0]);
      SumOfSnoc(Reciprocal, [], ins[0]);
    }
  }

  // ---------------------------------------------------------------- consolidation

  lemma {:induction false} HarmonicAtMost(xs: seq<nat>, bound: nat)
    requires forall x | x in xs :: Reciprocal(x) <= bound
    ensures Harmonic(xs) <= |xs| * bound
  {
    if xs != [] {
      var n := |xs| - 1;
      HarmonicAtMost(xs[..n], bound);
      assert Reciprocal(xs[n]) <= bound;
      assert |xs| * bound == n * bound + bound;
    }
  }

  /** Some input is at most the mean, so the largest reciprocal is at least that of the mean. */
  lemma {:induction false} SomeInputAtMostMean(xs: seq<nat>, m: nat, t: nat)
    requires xs != [] && Sum(xs) * m <= t * |xs|
    ensures exists i :: 0 <= i < |xs| && xs[i] * m <= t
  {
    var n := |xs| - 1;
    if n == 0 {
      assert xs == [] + [xs[0]];
      SumOfSnoc(Amount, [], xs[0]);
      assert xs[0] * m <= t;
    } else if xs[n] * m > t {
      assert Sum(xs) * m == Sum(xs[..n]) * m + xs[n] * m;
      assert t * |xs| == t * n + t;
      SomeInputAtMostMean(xs[..n], m, t);
      var i :| 0 <= i < |xs[..n]| && xs[..n][i] * m <= t;
      assert xs[i] * m <= t;
    }
  }

  lemma {:induction false} HarmonicAtLeastMember(xs: seq<nat>, i: nat)
    requires i < |xs|
    ensures Reciprocal(xs[i]) <= Harmonic(xs)
  {
    if i < |xs| - 1 {
      HarmonicAtLeastMember(xs[..|xs| - 1], i);
    }
  }

  ghost predicate OutputsAtLeastMean(ins: seq<nat>, outs: seq<nat>) {
    forall o | o in outs :: o * |ins| >= Sum(ins)
  }

  /** C // o <= C * n // S for an output o that is at least the mean S / n. */
  lemma OutputReciprocalAtMost(ins: seq<nat>, o: nat)
    requires ins != [] && 0 !in ins && o * |ins| >= Sum(ins) > 0
    ensures o > 0 && Reciprocal(o) <= STORAGE_MASS_PARAMETER * |ins| / Sum(ins)
  {
    var n, S, C := |ins|, Sum(ins), STORAGE_MASS_PARAMETER;
    assert o == 0 ==> o * n == 0;
    MulMonotone(S, o * n, C);
    assert C * S <= C * n * o;
    FloorMonotone(C, o, C * n, S);
  }

  /**
   Consolidation is free: with no more outputs than inputs and every output at least the mean
   input, storage mass is 0 in the standard branch and at most 1 in the relaxed one (0 again
   when there is a single output).
   */
  lemma ConsolidationIsFree(ins: seq<nat>, outs: seq<nat>)
    requires ins != [] && 0 !in ins
    requires |outs| <= |ins| && OutputsAtLeastMean(ins, outs)
    ensures StorageMass(ins, outs).Ok?
    ensures !UsesRelaxedFormula(|ins|, |outs|) ==> StorageMass(ins, outs).value == 0
    ensures UsesRelaxedFormula(|ins|, |outs|) ==> StorageMass(ins, outs).value <= 1
    ensures |outs| == 1 ==> StorageMass(ins, outs).value == 0
  {
    SumPositive(ins);
    var n, S := |ins|, Sum(ins);
    forall o | o in outs ensures o > 0 && Reciprocal(o) <= STORAGE_MASS_PARAMETER * n / S {
      OutputReciprocalAtMost(ins, o);
    }
    HarmonicAtMostMeanTerm(outs, n, S);
    FlooredMeanInequality(ins);
    if |outs| == 1 {
      SingleOutputBelowMean(ins, outs);
    }
  }

  lemma ScaledQuotient(n: nat, c: nat, S: nat)
    requires S > 0
    ensures n * (c * n / S) <= c * (n * n) / S
  {
    var q := c * n / S;
    DivisionBounds(c * n, S);
    MulMonotone(q * S, c * n, n);
    assert n * q * S == q * S * n;
    assert c * n * n == c * (n * n);
    QuotientAtLeast(n * q, c * (n * n), S);
  }

  lemma HarmonicAtMostMeanTerm(outs: seq<nat>, n: nat, S: nat)
    requires S > 0 && |outs| <= n
    requires forall o | o in outs :: Reciprocal(o) <= STORAGE_MASS_PARAMETER * n / S
    ensures Harmonic(outs) <= MeanTerm(n, S)
  {
    var q := STORAGE_MASS_PARAMETER * n / S;
    HarmonicAtMost(outs, q);
    MulMonotone(|outs|, n, q);
    ScaledQuotient(n, STORAGE_MASS_PARAMETER, S);
  }

  lemma SingleOutputBelowMean(ins: seq<nat>, outs: seq<nat>)
    requires ins != [] && 0 !in ins && |outs| == 1 && OutputsAtLeastMean(ins, outs)
    ensures Harmonic(outs) <= Harmonic(ins)
  {
    SumPositive(ins);
    var o := outs[0];
    assert o in outs;
    assert Sum(ins) * 1 <= o * |ins|;
    SomeInputAtMostMean(ins, 1, o);
    var i :| 0 <= i < |ins| && ins[i] * 1 <= o;
    assert ins[i] in ins;
    assert 0 < ins[i] <= o;
    MulMonotone(ins[i], o, STORAGE_MASS_PARAMETER);
    FloorMonotone(STORAGE_MASS_PARAMETER, o, STORAGE_MASS_PARAMETER, ins[i]);
    HarmonicAtLeastMember(ins, i);
    assert outs == [] + [o];
    SumOfSnoc(Reciprocal, [], o);
  }

  /** The 1 of the relaxed branch is reached, by two outputs of exactly the mean. */
  lemma ConsolidationBoundIsTight()
    ensures var C := STORAGE_MASS_PARAMETER;
            var ins, outs := [C - 1, C + 1], [C, C];
            && OutputsAtLeastMean(ins, outs) && UsesRelaxedFormula(|ins|, |outs|)
            && StorageMass(ins, outs) == Ok(1)
  {
    var C := STORAGE_MASS_PARAMETER;
    HarmonicPair(C - 1, C + 1);
    HarmonicPair(C, C);
    assert C / (C + 1) == 0 && C / (C - 1) == 1 && C / C == 1;
  }

  lemma HarmonicPair(a: nat, b: nat)
    ensures Sum([a, b]) == a + b && Harmonic([a, b]) == Reciprocal(a) + Reciprocal(b)
  {
    assert [a, b] == [] + [a] + [b];
    SumOfSnoc(Amount, [], a);
    SumOfSnoc(Amount, [] + [a], b);
    SumOfSnoc(Reciprocal, [], a);
    SumOfSnoc(Reciprocal, [] + [a], b);
  }

  // ---------------------------------------------------------------- adding an input

  lemma AddingInputRelaxed(ins: seq<nat>, outs: seq<nat>, a: nat)
    ensures RelaxedMass(ins + [a], outs) <= RelaxedMass(ins, outs)
  {
    SumOfSnoc(Reciprocal, ins, a);
  }

  /**
   The arithmetic-mean term grows, as an exact fraction, exactly when the new input `a`
   satisfies a * n^2 <= (2n + 1) * S, and then the standard mass does not rise. With flooring and
   the cut-off at zero it does not rise exactly when the smaller of what the outputs weigh and the
   old term, times the new sum, is at most C * (n + 1)^2.
   */
  lemma AddingInputStandard(ins: seq<nat>, outs: seq<nat>, a: nat)
    requires Sum(ins) > 0
    ensures var n, S, C := |ins|, Sum(ins), STORAGE_MASS_PARAMETER;
            && Sum(ins + [a]) == S + a
            && (a * (n * n) <= (2 * n + 1) * S
                <==> C * (n * n) * (S + a) <= C * ((n + 1) * (n + 1)) * S)
            && (a * (n * n) <= (2 * n + 1) * S
                ==> StandardMass(ins + [a], outs) <= StandardMass(ins, outs))
            && (StandardMass(ins + [a], outs) <= StandardMass(ins, outs)
                <==> Min(Harmonic(outs), MeanTerm(n, S)) * (S + a) <= C * ((n + 1) * (n + 1)))
  {
    var n, S, C := |ins|, Sum(ins), STORAGE_MASS_PARAMETER;
    SumOfSnoc(Amount, ins, a);
    assert (n + 1) * (n + 1) == n * n + 2 * n + 1;
    assert C * (n * n) * (S + a) == C * (n * n * S) + C * (a * (n * n));
    assert C * ((n + 1) * (n + 1)) * S == C * (n * n * S) + C * ((2 * n + 1) * S);
    if a * (n * n) <= (2 * n + 1) * S {
      FloorMonotone(C * (n * n), S, C * ((n + 1) * (n + 1)), S + a);
    }
    QuotientAtLeast(Min(Harmonic(outs), MeanTerm(n, S)), C * ((n + 1) * (n + 1)), S + a);
  }

  /** The claim that more inputs always lower storage mass fails: a large fourth input raises it. */
  lemma AddingInputCanRaiseMass()
    ensures exists ins: seq<nat>, outs: seq<nat>, a: nat ::
              && 0 !in ins && 0 !in outs && a > 0 && StorageMass(ins, outs).Ok? && StorageMass(ins + [a], outs).Ok?
              && StorageMass(ins + [a], outs).value > StorageMass(ins, outs).value
  {
    var ins, outs: seq<nat>, a: nat := [1000, 1000, 1000], [1000, 1000], 1_000_000_000;
    HarmonicPair(1000, 1000);
    SumOfSnoc(Amount, [1000, 1000], 1000);
    assert ins == [1000, 1000] + [1000];
    SumOfSnoc(Amount, ins, a);
    assert |ins| == 3 && |ins + [a]| == 4 && |outs| == 2;
    assert Sum(ins) == 3000 && Sum(ins + [a]) == 1_000_003_000;
    assert StorageMass(ins, outs) == Ok(0);
    assert MeanTerm(4, 1_000_003_000) < 16_000;
    assert Harmonic(outs) == 2_000_000_000;
    assert StorageMass(ins + [a], outs).Ok? && StorageMass(ins + [a], outs).value > 0;
  }

  /**
   At the switch from relaxed (two inputs x and y) to standard (a third input a), the input term
   grows as an exact fraction, C/x + C/y <= 9C/(x + y + a), exactly when
   (x + y) * (x + y + a) <= 9 * x * y; then its floored form does not fall either.
   */
  lemma ThirdInputTerm(x: nat, y: nat, a: nat)
    requires x > 0 && y > 0
    ensures var C := STORAGE_MASS_PARAMETER;
            && (C * y + C * x) * (x + y + a) <= 9 * C * (x * y) <==> (x + y) * (x + y + a) <= 9 * (x * y)
    ensures (x + y) * (x + y + a) <= 9 * (x * y) ==> Reciprocal(x) + Reciprocal(y) <= MeanTerm(3, x + y + a)
  {
    var C := STORAGE_MASS_PARAMETER;
    assert C * y + C * x == C * (x + y);
    assert C * (x + y) * (x + y + a) == C * ((x + y) * (x + y + a));
    if (x + y) * (x + y + a) <= 9 * (x * y) {
      QuotientsWithinFraction(C, x, y, x + y + a);
    }
  }

  /** Adding two quotients over the common denominator x * y. */
  lemma CommonDenominator(q: nat, r: nat, x: nat, y: nat, t: nat)
    ensures (q + r) * t * (x * y) == q * x * (y * t) + r * y * (x * t)
  {
    assert q * t * (x * y) == q * x * (y * t);
    assert r * t * (x * y) == r * y * (x * t);
    assert (q + r) * t == q * t + r * t;
    assert (q * t + r * t) * (x * y) == q * t * (x * y) + r * t * (x * y);
  }

  lemma SplitFactor(c: nat, x: nat, y: nat, t: nat)
    ensures c * (y * t) + c * (x * t) == c * ((x + y) * t)
  {
    assert (x + y) * t == y * t + x * t;
  }

  lemma QuotientsWithinFraction(c: nat, x: nat, y: nat, t: nat)
    requires x > 0 && y > 0 && t > 0 && (x + y) * t <= 9 * (x * y)
    ensures c / x + c / y <= c * (3 * 3) / t
  {
    var q, r := c / x, c / y;
    DivisionBounds(c, x);
    DivisionBounds(c, y);
    CommonDenominator(q, r, x, y, t);
    MulMonotone(q * x, c, y * t);
    MulMonotone(r * y, c, x * t);
    SplitFactor(c, x, y, t);
    ScaledBound(c, (x + y) * t, x * y);
    CancelFactor((q + r) * t, c * (3 * 3), x * y);
    QuotientAtLeast(q + r, c * (3 * 3), t);
  }

  lemma ScaledBound(c: nat, u: nat, v: nat)
    requires u <= 9 * v
    ensures c * u <= c * (3 * 3) * v
  {
    MulMonotone(u, 9 * v, c);
    assert c * (3 * 3) * v == 9 * v * c;
  }

  /** What is taken off the harmonic sum of the outputs. */
  function InputTerm(ins: seq<nat>, nOut: nat): nat
    requires Sum(ins) > 0
  {
    if UsesRelaxedFormula(|ins|, nOut) then Harmonic(ins) else MeanTerm(|ins|, Sum(ins))
  }

  /**
   Storage mass after one more input, on every pair of branches: it does not rise exactly when
   the input term does not fall or the new mass is zero.
   */
  lemma MassFollowsTerm(ins: seq<nat>, outs: seq<nat>, a: nat)
    requires ins != [] && 0 !in ins && 0 !in outs && a > 0
    ensures Sum(ins) > 0 && Sum(ins + [a]) > 0
    ensures StorageMass(ins, outs).Ok? && StorageMass(ins + [a], outs).Ok?
    ensures StorageMass(ins + [a], outs).value <= StorageMass(ins, outs).value
            <==> InputTerm(ins, |outs|) <= InputTerm(ins + [a], |outs|) || StorageMass(ins + [a], outs).value == 0
  {
    SumPositive(ins);
    SumPositive(ins + [a]);
    hide Sum, Harmonic, MeanTerm;
  }

  /** When the input term grows as an exact fraction, for each pair of branches. */
  predicate TermGrows(ins: seq<nat>, nOut: nat, a: nat) {
    if UsesRelaxedFormula(|ins| + 1, nOut) then true
    else if UsesRelaxedFormula(|ins|, nOut) && |ins| == 2 then
      (ins[0] + ins[1]) * (ins[0] + ins[1] + a) <= 9 * (ins[0] * ins[1])
    else a * (|ins| * |ins|) <= (2 * |ins| + 1) * Sum(ins)
  }

  /** On every pair of branches: an input whose term grows never raises storage mass. */
  lemma AddingInputByBranch(ins: seq<nat>, outs: seq<nat>, a: nat)
    requires ins != [] && 0 !in ins && 0 !in outs && a > 0 && TermGrows(ins, |outs|, a)
    ensures StorageMass(ins, outs).Ok? && StorageMass(ins + [a], outs).Ok?
    ensures StorageMass(ins + [a], outs).value <= StorageMass(ins, outs).value
  {
    MassFollowsTerm(ins, outs, a);
    if UsesRelaxedFormula(|ins| + 1, |outs|) {
      AddingInputRelaxed(ins, outs, a);
      RelaxedAtMostStandard(ins, outs);
    } else if UsesRelaxedFormula(|ins|, |outs|) {
      assert ins == [ins[0], ins[1]];
      HarmonicPair(ins[0], ins[1]);
      SumOfSnoc(Amount, ins, a);
      ThirdInputTerm(ins[0], ins[1], a);
    } else {
      AddingInputStandard(ins, outs, a);
    }
    hide Sum, Harmonic, MeanTerm, Reciprocal;
  }

  /**
   More inputs lower storage mass, on every pair of branches, exactly when the payment is then
   relaxed, or when the new sum is at most C * (n + 1)^2 over the smaller of what the outputs weigh
   and the old input term: an exact threshold on the new input.
   */
  lemma AddingInputExactlyWhen(ins: seq<nat>, outs: seq<nat>, a: nat)
    requires ins != [] && 0 !in ins && 0 !in outs && a > 0
    ensures Sum(ins) > 0 && StorageMass(ins, outs).Ok? && StorageMass(ins + [a], outs).Ok?
    ensures var n, C := |ins|, STORAGE_MASS_PARAMETER;
            StorageMass(ins + [a], outs).value <= StorageMass(ins, outs).value
            <==> || UsesRelaxedFormula(n + 1, |outs|)
                 || Min(Harmonic(outs), InputTerm(ins, |outs|)) * (Sum(ins) + a) <= C * ((n + 1) * (n + 1))
  {
    MassFollowsTerm(ins, outs, a);
    if UsesRelaxedFormula(|ins| + 1, |outs|) {
      AddingInputByBranch(ins, outs, a);
    } else {
      SumOfSnoc(Amount, ins, a);
      var n, C := |ins|, STORAGE_MASS_PARAMETER;
      QuotientAtLeast(Min(Harmonic(outs), InputTerm(ins, |outs|)), C * ((n + 1) * (n + 1)), Sum(ins) + a);
      hide Sum, Harmonic, Reciprocal;
    }
  }

  /** At the switch from relaxed to standard even a small third input can raise the mass. */
  lemma ThirdInputCanRaiseMass()
    ensures var ins, outs, a: nat := [1, 1_000_000], [1000, 1000], 1;
            && a * (|ins| * |ins|) <= (2 * |ins| + 1) * Sum(ins)
            && StorageMass(ins, outs) == Ok(0)
            && StorageMass(ins + [a], outs).Ok? && StorageMass(ins + [a], outs).value > 0
  {
    var ins, outs, a: nat := [1, 1_000_000], [1000, 1000], 1;
    HarmonicPair(1, 1_000_000);
    HarmonicPair(1000, 1000);
    SumOfSnoc(Amount, ins, a);
    hide SumOf;
    assert |ins + [a]| == 3 && Sum(ins + [a]) == 1_000_002;
    assert MeanTerm(3, 1_000_002) < 9_000_000;
  }
}
