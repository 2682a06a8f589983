/**
 * One pass of the frame loop over the history: crop every detected face,
 * then feed the predictor's outputs for those faces to the smoother.  The
 * detector's boxes and the predictor's outputs are parameters.
 */
module Frame {
  import opened Outcomes
  import opened Crop
  import opened Smoothing
  import opened History

  /**
   * The crop regions of the frame's faces, in detector order, and the labels
   * the smoother gives them; the batch handed to the smoother has one entry
   * per detected face, so frames without a face leave the history alone.
   */
  method ProcessFrame(history: PredictionHistory, imgW: int, imgH: int, faces: seq<Box>,
                      genderScores: seq<real>, ageDists: seq<seq<real>>)
    returns (regions: seq<Region>, labels: Result<seq<Label>, SmoothError>)
    requires history.Valid()
    requires |genderScores| == |faces| && |ageDists| == |faces|
    requires forall d | d in ageDists :: |d| == AgeBins
    modifies history
    ensures history.Valid()
    ensures |regions| == |faces|
    ensures forall i :: 0 <= i < |faces| ==> regions[i] == CropFace(imgW, imgH, Some(faces[i]), CaptureMargin)
    ensures faces == [] ==>
      labels == Success([]) &&
      history.agePredictions == old(history.agePredictions) &&
      history.genderPredictions == old(history.genderPredictions) &&
      history.ageLog == old(history.ageLog) && history.genderLog == old(history.genderLog)
    ensures faces != [] ==>
      history.ageLog == old(history.ageLog) + [ExpectedAges(ageDists)] &&
      history.genderLog == old(history.genderLog) + [genderScores] &&
      history.agePredictions == Evict(old(history.agePredictions) + [ExpectedAges(ageDists)], MaxStore) &&
      history.genderPredictions == Evict(old(history.genderPredictions) + [genderScores], MaxStore)
    ensures faces != [] ==> (labels.Failure? <==> !Rectangular(history.agePredictions, |faces|))
    ensures labels.Success? && faces != [] ==>
      Rectangular(history.agePredictions, |faces|) && Rectangular(history.genderPredictions, |faces|) &&
      |labels.value| == |faces| &&
      forall i :: 0 <= i < |faces| ==>
        labels.value[i] == SmoothedLabel(history.agePredictions, history.genderPredictions, i)
  {
    regions := CropFaces(imgW, imgH, faces);
    labels := history.Step(|faces|, genderScores, ageDists);
  }

  /**
   * Feeding one batch `MaxStore` times into a fresh history labels every
   * face from that batch alone: the mean of identical batches is the batch.
   */
  method RepeatedBatchScenario(genderScores: seq<real>, ageDists: seq<seq<real>>)
    returns (r: Result<seq<Label>, SmoothError>)
    requires |genderScores| == |ageDists| > 0
    requires forall d | d in ageDists :: |d| == AgeBins
    ensures r.Success? && |r.value| == |ageDists|
    ensures forall i :: 0 <= i < |ageDists| ==>
      r.value[i] == Label(Trunc(ExpectedAge(ageDists[i])), GenderOf(genderScores[i]))
  {
    var n := |ageDists|;
    var ages := ExpectedAges(ageDists);
    var h := new PredictionHistory();
    r := SameBatchFrame(h, genderScores, ageDists);
    r := SameBatchFrame(h, genderScores, ageDists);
    r := SameBatchFrame(h, genderScores, ageDists);
    r := SameBatchFrame(h, genderScores, ageDists);
    r := SameBatchFrame(h, genderScores, ageDists);
    CopiesInWindow(h, ages, genderScores);
    forall i | 0 <= i < n
      ensures r.value[i] == Label(Trunc(ExpectedAge(ageDists[i])), GenderOf(genderScores[i]))
    {
      SmoothedLabelOfRepeatedBatch(h.agePredictions, h.genderPredictions, ages, genderScores, i);
    }
  }

  /**
   * Six one-face frames whose age distributions are one-hot at `k1` .. `k6`:
   * the sixth frame evicts the first, and the stored expected ages are
   * exactly `k2` .. `k6`, oldest first.
   */
  method EvictionScenario(k1: nat, k2: nat, k3: nat, k4: nat, k5: nat, k6: nat, g: real)
    returns (window: seq<seq<real>>)
    requires k1 < AgeBins && k2 < AgeBins && k3 < AgeBins && k4 < AgeBins && k5 < AgeBins && k6 < AgeBins
    ensures window == [[k2 as real], [k3 as real], [k4 as real], [k5 as real], [k6 as real]]
  {
    var h := new PredictionHistory();
    OneFaceFrame(h, k1, g);
    OneFaceFrame(h, k2, g);
    OneFaceFrame(h, k3, g);
    OneFaceFrame(h, k4, g);
    OneFaceFrame(h, k5, g);
    OneFaceFrame(h, k6, g);
    var log := [[k1 as real], [k2 as real], [k3 as real], [k4 as real], [k5 as real], [k6 as real]];
    assert h.ageLog == log;
    OldestEvicted(log, MaxStore);
    window := h.agePredictions;
  }

  /** Every batch recorded so far is `ages` for the ages and `genders` for the gender scores. */
  ghost predicate LogOfCopies(h: PredictionHistory, ages: seq<real>, genders: seq<real>)
    reads h
  {
    |h.ageLog| == |h.genderLog| &&
    forall j :: 0 <= j < |h.ageLog| ==> h.ageLog[j] == ages && h.genderLog[j] == genders
  }

  /** A history whose every recorded batch is the same holds only that batch. */
  lemma CopiesInWindow(h: PredictionHistory, ages: seq<real>, genders: seq<real>)
    requires h.Valid() && |h.ageLog| > 0 && LogOfCopies(h, ages, genders)
    ensures |h.agePredictions| > 0 && AllEqual(h.agePredictions, ages) && AllEqual(h.genderPredictions, genders)
    ensures Rectangular(h.agePredictions, |ages|)
  {
    NewestInOrder(h.ageLog, h.agePredictions);
    NewestInOrder(h.genderLog, h.genderPredictions);
  }

  /** One more frame with the same batch of faces. */
  method SameBatchFrame(h: PredictionHistory, genderScores: seq<real>, ageDists: seq<seq<real>>)
    returns (r: Result<seq<Label>, SmoothError>)
    requires h.Valid()
    requires |genderScores| == |ageDists| > 0
    requires forall d | d in ageDists :: |d| == AgeBins
    requires LogOfCopies(h, ExpectedAges(ageDists), genderScores)
    modifies h
    ensures h.Valid() && |h.ageLog| > 0
    ensures LogOfCopies(h, ExpectedAges(ageDists), genderScores)
    ensures r.Failure? <==> !Rectangular(h.agePredictions, |ageDists|)
    ensures r.Success? ==>
      Rectangular(h.agePredictions, |ageDists|) && Rectangular(h.genderPredictions, |ageDists|) &&
      |r.value| == |ageDists| &&
      forall i :: 0 <= i < |ageDists| ==> r.value[i] == SmoothedLabel(h.agePredictions, h.genderPredictions, i)
  {
    r := h.Step(|ageDists|, genderScores, ageDists);
  }

  /** A frame with one face whose age distribution is one-hot at `k`. */
  method OneFaceFrame(h: PredictionHistory, k: nat, g: real)
    requires h.Valid() && k < AgeBins
    modifies h
    ensures h.Valid()
    ensures h.ageLog == old(h.ageLog) + [[k as real]]
  {
    OneHotAges(k);
    var r := h.Step(1, [g], [OneHot(k)]);
  }

  lemma OneHotAges(k: nat)
    requires k < AgeBins
    ensures ExpectedAges([OneHot(k)]) == [k as real]
  {
    OneHotExpectedAge(k);
  }
}
