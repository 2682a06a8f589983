/**
 * The prediction history of the frame loop: two lists of per-frame batches,
 * expected ages and gender scores, appended together on every frame with a
 * face and cut back to the newest `MaxStore` frames by popping the front.
 */
module History {
  import opened Outcomes
  import opened Smoothing

  /** The number of frames averaged. */
  const MaxStore: nat := 5

  /** The last `n` elements of `s` (all of them when there are fewer). */
  function LastN<T>(s: seq<T>, n: nat): (r: seq<T>)
    ensures |r| == if |s| <= n then |s| else n
    ensures forall j :: 0 <= j < |r| ==> r[j] == s[|s| - |r| + j]
  {
    if |s| <= n then s else s[|s| - n..]
  }

  /** One `pop(0)` when the list has grown past `n`. */
  function Evict<T>(s: seq<T>, n: nat): seq<T> {
    if |s| > n then s[1..] else s
  }

  /** Appending and popping once keeps exactly the newest `n` batches. */
  lemma LastNAppend<T>(s: seq<T>, x: T, n: nat)
    requires n >= 1
    ensures LastN(s + [x], n) == Evict(LastN(s, n) + [x], n)
  {
    if |s| >= n {
      assert (s + [x])[|s| + 1 - n..] == s[|s| + 1 - n..] + [x];
      assert (s[|s| - n..] + [x])[1..] == s[|s| + 1 - n..] + [x];
    }
  }

  /** The (n+1)-th batch pushes out the first one and keeps the rest in order. */
  lemma OldestEvicted<T>(s: seq<T>, n: nat)
    requires |s| == n + 1
    ensures LastN(s, n) == s[1..]
  {
  }

  /** Why a frame gets no labels: `np.mean` cannot average batches of different widths. */
  datatype SmoothError = RaggedHistory

  class PredictionHistory {
    /** The stored expected ages, one batch per frame, newest last. */
    var agePredictions: seq<seq<real>>
    /** The stored gender scores, one batch per frame, newest last. */
    var genderPredictions: seq<seq<real>>
    /** Every age batch ever appended. */
    ghost var ageLog: seq<seq<real>>
    /** Every gender batch ever appended. */
    ghost var genderLog: seq<seq<real>>

    /**
     * The two lists hold the newest `MaxStore` batches ever appended, and the
     * age and gender batches of one frame have the same width.
     */
    ghost predicate Valid()
      reads this
      ensures Valid() ==> |agePredictions| == |genderPredictions| <= MaxStore
    {
      |ageLog| == |genderLog| &&
      agePredictions == LastN(ageLog, MaxStore) &&
      genderPredictions == LastN(genderLog, MaxStore) &&
      forall j :: 0 <= j < |agePredictions| ==> |agePredictions[j]| == |genderPredictions[j]|
    }

    constructor ()
      ensures Valid()
      ensures agePredictions == [] && genderPredictions == [] && ageLog == [] && genderLog == []
    {
      agePredictions, genderPredictions := [], [];
      ageLog, genderLog := [], [];
    }

    /** Appends one frame's batches to both lists and pops the oldest frame past `MaxStore`. */
    method Record(ages: seq<real>, genders: seq<real>)
      requires Valid()
      requires |ages| == |genders|
      modifies this
      ensures Valid()
      ensures ageLog == old(ageLog) + [ages] && genderLog == old(genderLog) + [genders]
      ensures agePredictions == Evict(old(agePredictions) + [ages], MaxStore)
      ensures genderPredictions == Evict(old(genderPredictions) + [genders], MaxStore)
    {
      LastNAppend(ageLog, ages, MaxStore);
      LastNAppend(genderLog, genders, MaxStore);
      agePredictions := agePredictions + [ages];
      genderPredictions := genderPredictions + [genders];
      if |agePredictions| > MaxStore {
        agePredictions := agePredictions[1..];
        genderPredictions := genderPredictions[1..];
      }
      ageLog := ageLog + [ages];
      genderLog := genderLog + [genders];
    }

    /**
     * One frame of the smoother: `faceCount` faces were detected and the
     * predictor returned a gender score and an age distribution for each.
     * Frames without a face change nothing; otherwise the batches are
     * recorded and every face gets the label of the averaged history, unless
     * the stored batches differ in width.
     */
    method Step(faceCount: nat, genderScores: seq<real>, ageDists: seq<seq<real>>)
      returns (r: Result<seq<Label>, SmoothError>)
      requires Valid()
      requires |genderScores| == faceCount && |ageDists| == faceCount
      requires forall d | d in ageDists :: |d| == AgeBins
      modifies this
      ensures Valid()
      ensures faceCount == 0 ==>
        r == Success([]) &&
        agePredictions == old(agePredictions) && genderPredictions == old(genderPredictions) &&
        ageLog == old(ageLog) && genderLog == old(genderLog)
      ensures faceCount > 0 ==>
        ageLog == old(ageLog) + [ExpectedAges(ageDists)] && genderLog == old(genderLog) + [genderScores] &&
        agePredictions == Evict(old(agePredictions) + [ExpectedAges(ageDists)], MaxStore) &&
        genderPredictions == Evict(old(genderPredictions) + [genderScores], MaxStore)
      ensures faceCount > 0 ==> (r.Failure? <==> !Rectangular(agePredictions, faceCount))
      ensures r.Success? && faceCount > 0 ==>
        Rectangular(agePredictions, faceCount) && Rectangular(genderPredictions, faceCount) &&
        |r.value| == faceCount &&
        forall i :: 0 <= i < faceCount ==> r.value[i] == SmoothedLabel(agePredictions, genderPredictions, i)
    {
      if faceCount == 0 {
        return Success([]);
      }
      var ages := ExpectedAges(ageDists);
      Record(ages, genderScores);
      var n := |agePredictions|;
      assert agePredictions[n - 1] == ages;
      if !Rectangular(agePredictions, faceCount) {
        return Failure(RaggedHistory);
      }
      assert forall j :: 0 <= j < n ==> agePredictions[j] in agePredictions;
      assert forall b | b in genderPredictions :: |b| == faceCount;
      var avgAges := Average(agePredictions);
      var avgGenders := Average(genderPredictions);
      var labels := LabelFaces(avgAges, avgGenders, faceCount);
      r := Success(labels);
    }
  }

  /**
   * After any sequence of updates both lists hold the newest
   * `min(updates, MaxStore)` batches, oldest first and newest last.
   */
  lemma HistoryHoldsNewest(h: PredictionHistory)
    requires h.Valid()
    ensures var n := |h.ageLog|;
            |h.agePredictions| == |h.genderPredictions| == (if n <= MaxStore then n else MaxStore)
    ensures forall j :: 0 <= j < |h.agePredictions| ==>
      h.agePredictions[j] == h.ageLog[|h.ageLog| - |h.agePredictions| + j] &&
      h.genderPredictions[j] == h.genderLog[|h.genderLog| - |h.genderPredictions| + j]
  {
    var ages, genders, ageLog, genderLog := h.agePredictions, h.genderPredictions, h.ageLog, h.genderLog;
    assert ages == LastN(ageLog, MaxStore) && genders == LastN(genderLog, MaxStore) && |ageLog| == |genderLog|;
    NewestInOrder(ageLog, ages);
    NewestInOrder(genderLog, genders);
  }

  lemma NewestInOrder<T>(log: seq<T>, window: seq<T>)
    requires window == LastN(log, MaxStore)
    ensures |window| == if |log| <= MaxStore then |log| else MaxStore
    ensures forall j :: 0 <= j < |window| ==> window[j] == log[|log| - |window| + j]
  {
  }

  /** The label loop of one frame: face `i` is labelled from the `i`-th averages. */
  method LabelFaces(avgAges: seq<real>, avgGenders: seq<real>, faceCount: nat) returns (labels: seq<Label>)
    requires faceCount <= |avgAges| && faceCount <= |avgGenders|
    ensures |labels| == faceCount
    ensures forall i :: 0 <= i < faceCount ==> labels[i] == FaceLabel(avgAges[i], avgGenders[i])
  {
    labels := [];
    var i := 0;
    while i < faceCount
      invariant 0 <= i <= faceCount
      invariant |labels| == i
      invariant forall j :: 0 <= j < i ==> labels[j] == FaceLabel(avgAges[j], avgGenders[j])
    {
      labels := labels + [FaceLabel(avgAges[i], avgGenders[i])];
      i := i + 1;
    }
  }
}
