/**
 * The pure arithmetic of the prediction smoother: the expected age of a
 * per-face age distribution, the index-wise mean of the stored batches, the
 * truncation of the mean age and the gender threshold.  Values are exact
 * reals standing for the float64 arrays of the pipeline.
 */
module Smoothing {

  /** The predictor's age distribution has one bin per year 0..100. */
  const AgeBins: nat := 101

  /** The gender threshold: strictly above it the face is labelled female. */
  const FemaleThreshold: real := 0.5

  datatype Gender = Male | Female

  /** The label shown for one face: a whole age and a gender. */
  datatype Label = Label(age: int, gender: Gender)

  function Sum(s: seq<real>): real
    decreases |s|
  {
    if |s| == 0 then 0.0 else s[0] + Sum(s[1..])
  }

  /** `sum over j of d[j] * (start + j)`: the dot product with the bin ages from `start` on. */
  function WeightedFrom(d: seq<real>, start: nat): real
    decreases |d|
  {
    if |d| == 0 then 0.0 else d[0] * (start as real) + WeightedFrom(d[1..], start + 1)
  }

  /** The expected age of a distribution over the bins 0, 1, 2, ... */
  function ExpectedAge(dist: seq<real>): real {
    WeightedFrom(dist, 0)
  }

  /** The expected age of every face of a batch, in batch order. */
  function ExpectedAges(dists: seq<seq<real>>): (ages: seq<real>)
    ensures |ages| == |dists|
  {
    seq(|dists|, i requires 0 <= i < |dists| => ExpectedAge(dists[i]))
  }

  /** The distribution that puts all its mass on bin `k`. */
  function OneHot(k: nat): (d: seq<real>)
    requires k < AgeBins
    ensures |d| == AgeBins && d[k] == 1.0
  {
    seq(AgeBins, j => if j == k then 1.0 else 0.0)
  }

  predicate IsDistribution(d: seq<real>) {
    (forall j :: 0 <= j < |d| ==> 0.0 <= d[j]) && Sum(d) == 1.0
  }

  lemma {:induction false} WeightedFromZero(d: seq<real>, start: nat)
    requires forall j :: 0 <= j < |d| ==> d[j] == 0.0
    ensures WeightedFrom(d, start) == 0.0
    decreases |d|
  {
    if |d| > 0 {
      WeightedFromZero(d[1..], start + 1);
    }
  }

  lemma {:induction false} WeightedFromSingle(d: seq<real>, start: nat, k: nat)
    requires k < |d| && d[k] == 1.0
    requires forall j :: 0 <= j < |d| && j != k ==> d[j] == 0.0
    ensures WeightedFrom(d, start) == (start + k) as real
    decreases |d|
  {
    if k == 0 {
      WeightedFromZero(d[1..], start + 1);
    } else {
      WeightedFromSingle(d[1..], start + 1, k - 1);
    }
  }

  /** A one-hot distribution at bin `k` has expected age exactly `k`. */
  lemma OneHotExpectedAge(k: nat)
    requires k < AgeBins
    ensures ExpectedAge(OneHot(k)) == k as real
  {
    WeightedFromSingle(OneHot(k), 0, k);
  }

  lemma {:induction false} WeightedFromBounds(d: seq<real>, start: nat)
    requires forall j :: 0 <= j < |d| ==> 0.0 <= d[j]
    ensures (start as real) * Sum(d) <= WeightedFrom(d, start)
    ensures WeightedFrom(d, start) <= (start as real + |d| as real - 1.0) * Sum(d)
    decreases |d|
  {
    if |d| > 0 {
      var rest := d[1..];
      WeightedFromBounds(rest, start + 1);
      SumNonNegative(rest);
      var s, n := start as real, |d| as real;
      assert WeightedFrom(d, start) == d[0] * s + WeightedFrom(rest, start + 1);
      assert Sum(d) == d[0] + Sum(rest);
      assert s * Sum(rest) <= (s + 1.0) * Sum(rest);
      assert d[0] * s <= d[0] * (s + n - 1.0);
    }
  }

  lemma {:induction false} SumNonNegative(d: seq<real>)
    requires forall j :: 0 <= j < |d| ==> 0.0 <= d[j]
    ensures 0.0 <= Sum(d)
    decreases |d|
  {
    if |d| > 0 {
      SumNonNegative(d[1..]);
    }
  }

  /** The expected age of a probability distribution lies between its first and last bin. */
  lemma ExpectedAgeRange(d: seq<real>)
    requires IsDistribution(d) && |d| == AgeBins
    ensures 0.0 <= ExpectedAge(d) <= (AgeBins - 1) as real
  {
    WeightedFromBounds(d, 0);
  }

  /** Every stored batch has one value per face of `width` faces. */
  predicate Rectangular(window: seq<seq<real>>, width: nat) {
    forall b | b in window :: |b| == width
  }

  /** The sum of column `i` over the stored batches. */
  function ColumnSum(window: seq<seq<real>>, i: nat): real
    requires forall b | b in window :: i < |b|
    decreases |window|
  {
    if |window| == 0 then 0.0 else window[0][i] + ColumnSum(window[1..], i)
  }

  /**
   * `np.mean(window, axis=0)`: the index-wise mean of the stored batches,
   * defined when every batch has the width of the first one.
   */
  function Average(window: seq<seq<real>>): (avg: seq<real>)
    requires |window| > 0 && Rectangular(window, |window[0]|)
    ensures |avg| == |window[0]|
  {
    seq(|window[0]|, i requires 0 <= i < |window[0]| => ColumnSum(window, i) / (|window| as real))
  }

  /** Python's `int(r)`: truncation toward zero. */
  function Trunc(r: real): (k: int)
    ensures 0.0 <= r ==> 0 <= k && k as real <= r < k as real + 1.0
    ensures r < 0.0 ==> k <= 0 && k as real - 1.0 < r <= k as real
  {
    if r >= 0.0 then r.Floor else -((-r).Floor)
  }

  lemma TruncOfWhole(k: int)
    ensures Trunc(k as real) == k
  {
  }

  function GenderOf(p: real): Gender {
    if p > FemaleThreshold then Female else Male
  }

  /** The label of one face from its averaged expected age and averaged gender score. */
  function FaceLabel(avgAge: real, avgGender: real): Label {
    Label(Trunc(avgAge), GenderOf(avgGender))
  }

  /** The smoothed label of face `i` from the stored age and gender windows. */
  function SmoothedLabel(ageWindow: seq<seq<real>>, genderWindow: seq<seq<real>>, i: nat): Label
    requires |ageWindow| > 0 && Rectangular(ageWindow, |ageWindow[0]|) && i < |ageWindow[0]|
    requires |genderWindow| > 0 && Rectangular(genderWindow, |genderWindow[0]|) && i < |genderWindow[0]|
  {
    FaceLabel(Average(ageWindow)[i], Average(genderWindow)[i])
  }

  /** The gender rule as a statement on both sides of the threshold. */
  lemma GenderThreshold(p: real)
    ensures GenderOf(p) == Female <==> p > 0.5
    ensures GenderOf(0.5) == Male
  {
  }

  /** Every stored batch equals `v`. */
  predicate AllEqual(window: seq<seq<real>>, v: seq<real>) {
    forall b | b in window :: b == v
  }

  lemma {:induction false} ColumnSumOfCopies(window: seq<seq<real>>, v: seq<real>, i: nat)
    requires AllEqual(window, v) && i < |v|
    ensures ColumnSum(window, i) == (|window| as real) * v[i]
    decreases |window|
  {
    if |window| > 0 {
      assert window[0] in window;
      assert forall b | b in window[1..] :: b in window;
      ColumnSumOfCopies(window[1..], v, i);
    }
  }

  /** The mean of identical stored batches is that batch. */
  lemma AverageOfCopies(window: seq<seq<real>>, v: seq<real>)
    requires |window| > 0 && AllEqual(window, v)
    ensures Rectangular(window, |window[0]|) && Average(window) == v
  {
    assert window[0] in window;
    forall i | 0 <= i < |v| ensures Average(window)[i] == v[i] {
      ColumnSumOfCopies(window, v, i);
    }
  }

  /** `n` copies of `x` added up, which keeps the bounds proofs below linear. */
  function Times(n: nat, x: real): real
    decreases n
  {
    if n == 0 then 0.0 else x + Times(n - 1, x)
  }

  lemma {:induction false} TimesIsProduct(n: nat, x: real)
    ensures Times(n, x) == (n as real) * x
    decreases n
  {
    if n > 0 {
      TimesIsProduct(n - 1, x);
      assert (n as real) * x == ((n - 1) as real) * x + x;
    }
  }

  lemma {:induction false} ColumnSumBounds(window: seq<seq<real>>, i: nat, lo: real, hi: real)
    requires forall j :: 0 <= j < |window| ==> i < |window[j]| && lo <= window[j][i] <= hi
    ensures forall b | b in window :: i < |b|
    ensures Times(|window|, lo) <= ColumnSum(window, i) <= Times(|window|, hi)
    decreases |window|
  {
    if |window| > 0 {
      var rest := window[1..];
      assert forall j :: 0 <= j < |rest| ==> rest[j] == window[j + 1];
      ColumnSumBounds(rest, i, lo, hi);
    }
  }

  /** The mean of values that all lie in `[lo, hi]` lies in `[lo, hi]`. */
  lemma AverageBounds(window: seq<seq<real>>, i: nat, lo: real, hi: real)
    requires |window| > 0 && Rectangular(window, |window[0]|) && i < |window[0]|
    requires forall b | b in window :: lo <= b[i] <= hi
    ensures lo <= Average(window)[i] <= hi
  {
    assert forall j :: 0 <= j < |window| ==> window[j] in window;
    ColumnSumBounds(window, i, lo, hi);
    QuotientBounds(ColumnSum(window, i), |window|, lo, hi);
  }

  lemma QuotientBounds(s: real, n: nat, lo: real, hi: real)
    requires n > 0 && Times(n, lo) <= s <= Times(n, hi)
    ensures lo <= s / (n as real) <= hi
  {
    TimesIsProduct(n, lo);
    TimesIsProduct(n, hi);
    var q := s / (n as real);
    assert s == q * (n as real);
  }

  /**
   * Idempotence: with every stored batch equal to one batch, each face is
   * labelled from that batch's own values.
   */
  lemma SmoothedLabelOfRepeatedBatch(ageWindow: seq<seq<real>>, genderWindow: seq<seq<real>>,
                                     ages: seq<real>, genders: seq<real>, i: nat)
    requires |ageWindow| > 0 && AllEqual(ageWindow, ages)
    requires |genderWindow| > 0 && AllEqual(genderWindow, genders)
    requires i < |ages| && i < |genders|
    ensures Rectangular(ageWindow, |ageWindow[0]|) && Rectangular(genderWindow, |genderWindow[0]|)
    ensures i < |ageWindow[0]| && i < |genderWindow[0]|
    ensures SmoothedLabel(ageWindow, genderWindow, i) == Label(Trunc(ages[i]), GenderOf(genders[i]))
  {
    AverageOfCopies(ageWindow, ages);
    AverageOfCopies(genderWindow, genders);
  }

  /**
   * A stored history of one-hot age distributions at bin `k` for face `i`
   * gives that face the age label `k`.
   */
  lemma SmoothedAgeOfOneHot(ageWindow: seq<seq<real>>, genderWindow: seq<seq<real>>, i: nat, k: nat)
    requires k < AgeBins
    requires |ageWindow| > 0 && Rectangular(ageWindow, |ageWindow[0]|) && i < |ageWindow[0]|
    requires |genderWindow| > 0 && Rectangular(genderWindow, |genderWindow[0]|) && i < |genderWindow[0]|
    requires forall b | b in ageWindow :: b[i] == ExpectedAge(OneHot(k))
    ensures SmoothedLabel(ageWindow, genderWindow, i).age == k
  {
    OneHotExpectedAge(k);
    AverageBounds(ageWindow, i, k as real, k as real);
  }

  /**
   * When every stored age is the expected age of a probability
   * distribution, the age label lies in 0..100.
   */
  lemma SmoothedAgeRange(ageWindow: seq<seq<real>>, genderWindow: seq<seq<real>>, i: nat)
    requires |ageWindow| > 0 && Rectangular(ageWindow, |ageWindow[0]|) && i < |ageWindow[0]|
    requires |genderWindow| > 0 && Rectangular(genderWindow, |genderWindow[0]|) && i < |genderWindow[0]|
    requires forall b | b in ageWindow :: exists d :: IsDistribution(d) && |d| == AgeBins && b[i] == ExpectedAge(d)
    ensures 0 <= SmoothedLabel(ageWindow, genderWindow, i).age <= AgeBins - 1
  {
    forall b | b in ageWindow ensures 0.0 <= b[i] <= (AgeBins - 1) as real {
      var d :| IsDistribution(d) && |d| == AgeBins && b[i] == ExpectedAge(d);
      ExpectedAgeRange(d);
    }
    AverageBounds(ageWindow, i, 0.0, (AgeBins - 1) as real);
  }
}
