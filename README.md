# Face age/gender pipeline: crop geometry and prediction smoothing

This project models the two pieces of integer and arithmetic logic in the
real-time age and gender estimator `newcode.py` and proves properties of them.

- **Crop geometry** (`FaceCV.crop_face`). A detected face box is widened on
  every side by a margin. The margin is a percentage (40 in the frame loop)
  of the smaller box side, truncated to an integer. The widened box is then
  clamped to the image by four `if`s in a fixed order: left, top, right,
  bottom. When no box is given, the whole image is used. Module `Crop`
  (`crop.dfy`).
- **Prediction smoothing** (the history inside `FaceCV.detect_face`). Each
  frame with at least one face appends one batch to each of two lists: the
  expected age of every face, and its gender score. When a list grows past
  `max_store = 5`, its front is popped. Both lists are then averaged
  index-wise. Face `i` gets the label `"{int(mean age)}, {F|M}"`, where `F`
  means the mean gender score is strictly above 0.5. Module `Smoothing`
  (`smoothing.dfy`) holds the pure arithmetic. Module `History`
  (`history.dfy`) holds the two lists as `seq` fields of the class
  `PredictionHistory`, with an update method `Step`. Module `LabelText`
  (`label_text.dfy`) holds the label text. Module `Frame` (`frame.dfy`)
  strings one frame together and holds two client scenarios.

The face detector, the neural-network predictor, the camera and the display
are not part of this model. The boxes the detector returns, and the gender
scores and age distributions the predictor returns, are parameters of
`Frame.ProcessFrame` and `History.PredictionHistory.Step`.

Numbers are exact: image geometry is `int`, and the float64 arrays of the
smoother are `real`. Python's `int(...)` truncates toward zero, and the model
writes that out (`Crop.TruncatedPercent`, `Smoothing.Trunc`). Dafny's `/` on
`int` is Euclidean; `Crop.TruncatedPercent` applies it only to a non-negative
dividend, where it equals floor division, and negates around it otherwise.

Facts about the code that are easy to get wrong:

- The age label truncates the mean with `int(...)`. It does not round.
- Averaging is index-wise over every stored batch; no batch is skipped for
  having fewer faces. `np.mean` over batches of different widths raises an
  error that nothing catches, so `detect_face` ends there: no later frame is
  processed and the camera is never released. `Step` returns
  `Failure(RaggedHistory)` for exactly those frames; the history has already
  been updated at that point, as in the code. Nothing in the model continues
  after such a frame.
- A frame without faces is skipped silently: the history is not touched and
  no label is drawn.
- A crop region of width or height 0 (a box with `w == 0` or `h == 0`, or
  `Crop.CropOnePixelWide`) makes the `cv2.resize` call of the cropper raise.
  The model computes the region itself and does not model that failure (see
  "## Left out").
- A 50x50 box at (100,100) in a 640x480 frame with margin 40 has a margin of
  20, so its region is (80,80,90,90) (`Crop.CropExample`).
- The left and top clamps cap the far edge at `img_w - 1` / `img_h - 1`, while
  the right and bottom clamps use `img_w` / `img_h`. So in a 1-pixel-wide
  image a box that overflows on the left gets width 0
  (`Crop.CropOnePixelWide`), and a box with positive sides is only sure to get
  a region of positive size in an image of at least 2x2
  (`Crop.CropPositiveExtent`).

## Model

| member | source | states |
|---|---|---|
| `Crop.TruncatedPercent` | newcode.py:41 | `int(n*pct/100)` is floor division by 100 for a non-negative product and truncation toward zero for a negative one |
| `Crop.Margin` | newcode.py:41 | for non-negative sides and percentage, the margin is `floor(min(w,h)*pct/100)` and is non-negative |
| `Crop.Section` | newcode.py:38-39 | whole-frame mode: an absent box is replaced by `(0, 0, img_w, img_h)`; defined by its body, used by `CropFace` and characterised by `CropWholeFrame` |
| `Crop.CropFace` | newcode.py:36-61 | for an image of at least 1x1, a non-negative percentage and a box with non-negative sides (or none), the region starts at or after the origin, has non-negative width and height, and ends inside the image |
| `Crop.ClampAxis` | newcode.py:46-57 | on one axis: the clamped edges satisfy `0 <= lo <= hi <= size`; an edge pair inside the image is kept; a near-edge overflow gives `(0, min(hi-lo, size-1))`; a far-edge overflow alone gives `(max(size-(hi-lo), 0), size)` |
| `Crop.CropAxisIndependence` | newcode.py:38-57 | the four sequential clamps equal one independent clamp per axis: the x-results depend only on x, w, the margin and the image width, and the y-results only on y, h, the margin and the image height |
| `Crop.CropUnclamped` | newcode.py:41-61 | a widened box inside the image is returned as `(x-m, y-m, w+2m, h+2m)` |
| `Crop.CropExample` | newcode.py:36-61 | a 50x50 box at (100,100) in a 640x480 image with margin 40 gives (80,80,90,90) |
| `Crop.CropLeftOverflow` | newcode.py:46-48 | a left overflow gives `x_a = 0` and width `min(w+2m, img_w-1)`, whatever happens on the right |
| `Crop.CropTopOverflow` | newcode.py:49-51 | a top overflow gives `y_a = 0` and height `min(h+2m, img_h-1)` |
| `Crop.CropRightOverflowOnly` | newcode.py:52-54 | a right overflow without a left one gives `x_a = max(img_w-(w+2m), 0)`, width `min(w+2m, img_w)`, and a region that ends at `img_w` |
| `Crop.CropBottomOverflowOnly` | newcode.py:55-57 | a bottom overflow without a top one gives `y_a = max(img_h-(h+2m), 0)`, height `min(h+2m, img_h)`, and a region that ends at `img_h` |
| `Crop.CropWholeFrame` | newcode.py:38-51 | with no box, a positive margin gives `(0,0,img_w-1,img_h-1)` and a zero margin gives `(0,0,img_w,img_h)` |
| `Crop.CropPositiveExtent` | newcode.py:41-61 | a box with positive sides in an image of at least 2x2 gets a region of positive width and height |
| `Crop.CropOnePixelWide` | newcode.py:46-48 | in a 1-pixel-wide image, a box with non-negative sides that overflows on the left gets width 0 |
| `Crop.CropFaces` | newcode.py:89-94 | one region per detected face, in detector order, each the crop region of that face at margin 40; all of them are inside the image |
| `Smoothing.ExpectedAge` | newcode.py:99-100 | the dot product of one face's distribution with the bin ages 0, 1, 2, ...; defined by its body, characterised by `OneHotExpectedAge` and `ExpectedAgeRange` |
| `Smoothing.ExpectedAges` | newcode.py:99-100 | the batch of expected ages has one entry per face |
| `Smoothing.OneHotExpectedAge` | newcode.py:99-100 | the expected age of a distribution with all its mass on bin k is exactly k |
| `Smoothing.ExpectedAgeRange` | newcode.py:99-100 | the expected age of a probability distribution over the 101 bins lies in [0, 100] |
| `Smoothing.Average` | newcode.py:110-111 | the index-wise mean of rectangular batches has the width of the batches |
| `Smoothing.AverageOfCopies` | newcode.py:110-111 | the index-wise mean of identical batches is that batch |
| `Smoothing.AverageBounds` | newcode.py:110-111 | if every stored value at index i lies in [lo, hi], so does the mean at index i |
| `Smoothing.Trunc` | newcode.py:114 | `int(r)` truncates toward zero: it is `floor(r)` for `r >= 0` and `ceil(r)` for `r < 0` |
| `Smoothing.TruncOfWhole` | newcode.py:114 | a whole number truncates to itself |
| `Smoothing.GenderOf` | newcode.py:115 | female when the averaged score is strictly above 0.5, male otherwise; defined by its body, characterised by `GenderThreshold` |
| `Smoothing.FaceLabel` | newcode.py:114-115 | the label of one face: the truncated averaged age and the thresholded averaged gender; defined by its body, used by `LabelFaces` |
| `Smoothing.SmoothedLabel` | newcode.py:110-115 | the label of face i from the index-wise means of the stored windows; defined by its body, characterised by `SmoothedLabelOfRepeatedBatch`, `SmoothedAgeOfOneHot` and `SmoothedAgeRange` |
| `Smoothing.GenderThreshold` | newcode.py:115 | the gender is female exactly when the score is strictly above 0.5, so 0.5 is male |
| `Smoothing.SmoothedLabelOfRepeatedBatch` | newcode.py:110-115 | when every stored batch is the same, face i is labelled with the truncated age and the gender of that batch |
| `Smoothing.SmoothedAgeOfOneHot` | newcode.py:99-115 | when every stored age for face i comes from a one-hot distribution at bin k, the age label of face i is k |
| `Smoothing.SmoothedAgeRange` | newcode.py:99-115 | when every stored age is the expected age of a probability distribution, the age label lies in 0..100 |
| `LabelText.NatTextRoundTrip` | newcode.py:114 | the decimal digits of a natural number denote that number |
| `LabelText.IntTextRoundTrip` | newcode.py:114 | Python's text of any integer, with its minus sign, reads back as that integer |
| `LabelText.IntText` | newcode.py:114 | `str` of a Python integer: a minus sign for negatives, then the decimal digits; defined by its body, characterised by `IntTextRoundTrip` |
| `LabelText.Text` | newcode.py:114-115 | a label text is at least four characters, has `", "` before its last character, and ends in `F` for female and `M` for male |
| `LabelText.TextRoundTrip` | newcode.py:114-115 | the label text of any label parses back to that label |
| `LabelText.TextInjective` | newcode.py:114-115 | two labels with the same text are the same label |
| `History.LastN` | newcode.py:105-107 | the window keeps `min(len, n)` elements, the newest ones, in their original order |
| `History.Evict` | newcode.py:105-107 | one `pop(0)` when the list has grown past `max_store`; defined by its body, characterised by `LastNAppend` and `OldestEvicted` |
| `History.LastNAppend` | newcode.py:103-107 | one append followed by at most one pop of the front keeps exactly the newest n batches |
| `History.OldestEvicted` | newcode.py:105-107 | with n+1 batches appended, the window is everything but the first |
| `History.PredictionHistory.Valid` | newcode.py:70-107 | both lists have equal length, never more than 5, and corresponding age and gender batches have the same width |
| `History.PredictionHistory.constructor` | newcode.py:70-72 | both lists start empty |
| `History.PredictionHistory.Record` | newcode.py:103-107 | both lists get the new batch appended, then lose their front when longer than 5; the invariant is kept |
| `History.PredictionHistory.Step` | newcode.py:96-115 | a frame without faces changes nothing; otherwise the expected ages and gender scores are recorded, the frame fails exactly when the stored age batches differ in width, and otherwise face i gets the label of the index-wise means at i |
| `History.HistoryHoldsNewest` | newcode.py:103-107 | after any sequence of updates both lists hold the newest `min(updates, 5)` batches, oldest first, newest last |
| `History.LabelFaces` | newcode.py:113-115 | one label per current face; face i gets the truncated mean age and the thresholded mean gender at index i |
| `Frame.ProcessFrame` | newcode.py:89-116 | one crop region per face, in detector order, at margin 40; the smoother's batch has one entry per detected face, so a frame without faces leaves both lists and both logs unchanged and draws no label; a frame with faces records its batches, fails exactly when the stored age batches are not all of its width, and otherwise labels face i from the index-wise means at i |
| `Frame.RepeatedBatchScenario` | newcode.py:96-115 | feeding one batch five times into a fresh history labels every face with that batch's own truncated expected age and gender |
| `Frame.EvictionScenario` | newcode.py:103-107 | after six one-face frames with one-hot ages k1..k6, the stored expected ages are exactly k2..k6: the sixth update evicted the first |

## Left out

- Model loading and prediction (`WideResNet`, `get_file`, `load_weights`, `model.predict`): these are foreign neural-network calls. Their outputs are parameters.
- Face detection (the Haar cascade and `detectMultiScale`): the detector is opaque. Its box list is a parameter.
- Pixel work (`cvtColor`, the array slice of the crop, `cv2.resize`): this is image resampling, not integer logic. Only the rectangle arithmetic is modelled.
- Crop.CropFace: the failure of `cv2.resize` on a region of width or height 0 is not modelled; such a region is returned like any other.
- Drawing and display (`draw_label`, `rectangle`, `putText`, `imshow`, `destroyAllWindows`): these are UI. The label text itself is modelled.
- Camera and loop control (`VideoCapture`, the `isOpened`/`sleep(5)` retry, `read`, `release`, the frame-rate sleep, the ESC key): these are I/O and timing. One pass of the `while True` loop is `Frame.ProcessFrame`.
- The singleton `__new__`, `get_args` and `main`: these are Python object plumbing and argument parsing.
- Float rounding: `np.mean`, the expected-age dot product and `min(w, h) * margin / 100` are computed on exact reals and integers. float64 rounding is not modelled.
- History.PredictionHistory.Step: the gender score of a face is the first component of the predictor's gender vector. That is the only component the label reads (`avg_genders[i][0]`), and the mean is index-wise, so the other components are not stored.
- History.PredictionHistory.Step: stored batches of different widths are modelled as a `Failure(RaggedHistory)` result, standing for the uncaught error `np.mean` raises, which ends `detect_face` without releasing the camera. This is the current numpy behaviour; older numpy versions broadcast a window whose narrower batches hold one face. Those versions are not modelled.
- History.PredictionHistory.Step: it requires that the predictor returns one gender score and one 101-bin age distribution per detected face. This is the predictor's output contract; the dot product with the 101 bin ages fails otherwise.
- The labels of the last face-bearing frame (`avg_ages`, `avg_genders`) are not kept between frames. A frame without faces draws no label, so they are never read then.
