# ZebraGait kinematics core in Dafny

A model of the two computational pieces of ZebraGait's fish-kinematics code:

- `swimTunnel.py` — the per-frame extraction rules of the video walk. These are the
  region-of-interest crop, `preprocess` (gray conversion, gamma lookup table, optional
  blur, optional binary threshold), the two contour-selection loops `getFishContours`
  and `getFishSkeleton`, and the `while` loop that counts the frames read.
  Module `SwimTunnel`, file `swim_tunnel.dfy`.
- `treatData.py` — the skeleton post-processing of `importData` and the tail-angle
  geometry of `computeData`. `importData` reshapes each skeleton file to (x, y) pairs,
  sorts them, removes duplicates, negates y and picks tail, head and headPe.
  `computeData` turns each landmark triple into sin alpha, the amplitude, beta and
  gamma. `treatData` is modelled only as the driver of the two. Module `TreatData`,
  file `treat_data.dfy`.

Two helper modules support them. `Results` (`results.dfy`) holds the Option and
Result datatypes that stand for the source's exceptions. `Floats` (`floats.dfy`)
models numpy float64 values as exact reals, a signed infinity or NaN, so that
`0/0` and an out-of-range `arcsin` give NaN as numpy does.

The OpenCV calls are treated as inputs the model does not look inside. They are the
fields of the `SwimTunnel.Vision` record: gray conversion, the two blurs, Canny plus
`findContours`, thinning plus `findContours`, `contourArea` and `arcLength`.
`np.sqrt`, `np.arcsin` and `np.pi` form the `Floats.MathLib` record. Properties that
need the square root to be one assume `Floats.IsSqrt` of it. The ROI that
`cv.selectROI` returns is a parameter. The video is a sequence of frames plus an
"opened" flag. The skeleton files are a sequence of `TreatData.SkeletonFile` values,
where `files[i]` is the file `expID_(i+1).npy`.

Some facts about the code that the model follows:
- The binarisation is `inRange(0, 110)` applied after the gamma table.
- The fish-contour area band is the open interval (5500, 6500).
- The landmarks are picked by position in the pre-treated list: tail = first point,
  head = last point and headPe = the point 50 from the end.
- Duplicates are removed by `np.unique` on whole (x, y) rows, so two points with the
  same x and different y both stay.
- Coincident landmarks make numpy divide 0 by 0. numpy returns NaN with a
  RuntimeWarning, and nothing raises.

The gamma table entry `trunc(sqrt(i/255) * 255)` is modelled as the integer square
root of `255 * i`. The two are equal for every i in 0..255. `255 * i` is a perfect
square only for i = 0 and i = 255, and both are exact in floating point. For every
other i, `sqrt(255 * i)` lies at least 1/511 away from an integer, which is far more
than the float64 rounding error.

## Model

| member | source | states |
|---|---|---|
| SwimTunnel.Crop | swimTunnel.py:30 | the crop has the clamped number of rows and columns Python slicing gives, and each kept pixel (i, j) is frame pixel (y + i, x + j) |
| SwimTunnel.CropEmpty | swimTunnel.py:30 | the crop is empty exactly when the rectangle has zero width or height or starts right of or below the frame |
| SwimTunnel.CropInBounds | swimTunnel.py:30 | a rectangle inside the frame crops to exactly h rows of w pixels, with out[r][c] == frame[y + r][x + c] |
| SwimTunnel.GammaEntry | swimTunnel.py:60-61 | entry i is a Byte and is the integer square root of 255 * i, which is trunc(sqrt(i / 255) * 255) |
| SwimTunnel.GammaTable | swimTunnel.py:60-61 | the table has 256 entries, and entry i is the integer square root of 255 * i |
| SwimTunnel.GammaTableEnds | swimTunnel.py:60-61 | table[0] == 0 and table[255] == 255 |
| SwimTunnel.GammaTableMonotone | swimTunnel.py:60-61 | the table is non-decreasing |
| SwimTunnel.GammaTableBrightens | swimTunnel.py:60-61 | table[i] >= i: the correction never darkens a pixel |
| SwimTunnel.GammaTableCut | swimTunnel.py:60-71 | a gray value is mapped to at most 110 exactly when it is at most 48 |
| SwimTunnel.ApplyLut | swimTunnel.py:62 | the lookup keeps the frame's shape, and output pixel (i, j) is the table entry of input pixel (i, j) |
| SwimTunnel.InRange | swimTunnel.py:69-71 | the output keeps the shape, holds only 0 and 255, and a pixel is 255 exactly when its input lies in [lo, hi] inclusive |
| SwimTunnel.Preprocess | swimTunnel.py:54-77 | with threshold on, every output pixel is 0 or 255 |
| SwimTunnel.PreprocessKeepsShape | swimTunnel.py:54-77 | preprocess never changes the frame's dimensions, whatever the flags |
| SwimTunnel.PreprocessPlain | swimTunnel.py:57-62 | without blur or threshold, each output pixel is the table entry of the gray pixel |
| SwimTunnel.PreprocessThresholdCut | swimTunnel.py:57-71 | with threshold and no blur, a pixel turns white exactly when its gray value is at most 48 |
| SwimTunnel.FishContourIndex | swimTunnel.py:88-94 | the loop's index is in range whenever there is a contour |
| SwimTunnel.FishContourIsLastInBand | swimTunnel.py:88-94 | the chosen index is the last whose area is strictly between 5500 and 6500, and 0 when none is |
| SwimTunnel.GetFishContours | swimTunnel.py:79-108 | the loop returns the contour the last-in-band rule picks, or the IndexError of an empty list |
| SwimTunnel.SkeletonScan | swimTunnel.py:119-124 | maxLen stays non-negative, and a bound index is in range and holds maxLen |
| SwimTunnel.SkeletonIsFirstLongest | swimTunnel.py:119-126 | an index is bound exactly when some arc length is above 0, and it is then the first index of maximal arc length |
| SwimTunnel.GetFishSkeleton | swimTunnel.py:110-126 | the loop returns the first longest contour, or the unbound-variable error when no arc length is positive |
| SwimTunnel.SelectFish | swimTunnel.py:29-38 | crop; an empty crop fails (cvtColor raises on it); otherwise preprocess with blur and threshold, then contour and skeleton selection, stopping at the first selection that raises |
| SwimTunnel.WalkFrames | swimTunnel.py:25-48 | the walk succeeds exactly when every frame's processing succeeds, and then counts every frame once with failFrames 0; otherwise it reports the first failing frame and its error |
| SwimTunnel.RunSwimTunnel | swimTunnel.py:5-52 | an unopened video raises; a video with no first frame raises (selectROI gets None); otherwise it succeeds exactly when every frame's processing succeeds, counting every frame once with failFrames 0, and else it fails with FrameFailed at the first frame whose crop is empty or whose selection raises |
| TreatData.Reshape | treatData.py:51 | the reshape succeeds exactly when the file holds two values per row, and gives one point per row |
| TreatData.ReshapeRoundTrip | treatData.py:51 | flattening the reshaped pairs gives back the file's values |
| TreatData.FlattenRoundTrip | treatData.py:51 | reshaping the flattened pairs gives back the pairs |
| TreatData.SortByX | treatData.py:52 | the result is sorted by x |
| TreatData.SortByXPermutes | treatData.py:52 | the sort is a permutation of its input |
| TreatData.Unique | treatData.py:53 | the rows are strictly increasing in (x, y) order and are exactly the distinct input points |
| TreatData.StrictlySortedIsDetermined | treatData.py:53 | two strictly sorted sequences with the same points are equal, so the unique rows are determined by the point set |
| TreatData.ArgsortIsIrrelevant | treatData.py:52-53 | any reordering of the same points gives the same unique rows, so the order the sort leaves equal-x points in does not matter |
| TreatData.SortByXIsIrrelevant | treatData.py:52-53 | the x-sort before np.unique does not change the result |
| TreatData.NegateY | treatData.py:55 | the in-place update negates every y and keeps every x |
| TreatData.Pretreat | treatData.py:51-55 | after pre-treatment no point repeats, x never decreases, and equal x comes with decreasing y |
| TreatData.PretreatKeepsPoints | treatData.py:51-55 | (x, y) is a pre-treated point exactly when (x, -y) was a loaded point |
| TreatData.PyIndex | treatData.py:58-60 | Python indexing succeeds exactly for -n <= k < n and selects a position below n |
| TreatData.PickLandmarks | treatData.py:58-60 | the pick succeeds exactly when A[-axisLon] is a valid Python index (-len < axisLon <= len); tail is A[0], head is A[-1], and headPe is A[len - axisLon] for positive axisLon and A[-axisLon] otherwise |
| TreatData.LandmarksOfSkeleton | treatData.py:58-60 | the pick succeeds exactly when there are at least 50 distinct points; tail is the first point (least x), head the last (greatest x), headPe the point at len - 50 |
| TreatData.LoadLandmarks | treatData.py:47-60 | one loop body yields the landmarks of the file, or BadShape or TooFewPoints |
| TreatData.LoadRow | treatData.py:47-60 | row i is taken from file i + 1, and a missing file is an error |
| TreatData.ImportData | treatData.py:35-62 | tailP, headP and headPe have nFiles rows; row i holds the landmarks of file i + 1; the import fails exactly when some row's file fails, and it reports the first such row |
| TreatData.CrossBounded | treatData.py:67 | the squared cross product is at most the product of the squared norms (Cauchy-Schwarz) |
| Floats.Mul | treatData.py:73-77 | a product is NaN exactly when an operand is NaN or 0 meets an infinity; it is infinite exactly when an operand is infinite and it is not NaN, with the sign rule; two numbers give a number |
| Floats.Div | treatData.py:75-76 | a quotient is NaN exactly for a NaN operand, 0/0 or inf/inf; it is infinite exactly for inf/number or nonzero/0, with the sign rule; a number over a nonzero number is a number and a number over an infinity is 0 |
| Floats.Minus | treatData.py:87-88 | a difference is NaN exactly for a NaN operand or inf - inf of one sign; two numbers give their exact difference |
| Floats.Arcsin | treatData.py:83-84 | arcsin gives a number exactly for a number in [-1, 1], and that number is the library arcsin; every other argument gives NaN |
| TreatData.SinAlpha | treatData.py:75-76 | sinAlpha is NaN (0/0) when head equals tail or headPe; otherwise it lies in [-1, 1] and times both norms equals the integer cross product |
| TreatData.Amplitude | treatData.py:73-77 | ampl is NaN when head equals tail or headPe; otherwise it has the sign of the cross product, ampl * abs(headPe - head) == cross, and ampl^2 * abs(headPe - head)^2 == cross^2 |
| TreatData.Beta | treatData.py:83-84 | beta is a number exactly when the three landmarks are pairwise distinct (the arcsin argument then lies in [-1, 1]); otherwise it is NaN |
| TreatData.BetaDefined | treatData.py:83-84 | the arcsin argument amplitude / abs(tail - headPe) gives a number exactly when the landmarks are pairwise distinct, over exact reals |
| TreatData.AmplitudeSeries | treatData.py:68-77 | the first loop fills ampl[i] for the rows it runs over; the other rows keep 0 |
| TreatData.BetaSeries | treatData.py:80-84 | the second loop fills beta[i] from ampl[i] for the rows it runs over; the other rows keep 0 |
| TreatData.GammaSeries | treatData.py:87-88 | gamma[i] == pi - beta[i] for every row |
| TreatData.AngleSeries | treatData.py:65-90 | both loops over a prefix of the rows, then gamma = pi - beta on every row |
| TreatData.ComputeDataAsWritten | treatData.py:65-90 | rows 0..nFiles-2 get their amplitude, beta and pi - beta; the last row keeps ampl = beta = 0 and gets gamma = pi |
| TreatData.SkippedFrameIsNotZero | treatData.py:72-84 | a last frame with tail (0, 1), headPe (1, 0), head (2, 0) (in x order, as importData leaves them) has amplitude 1 and the number beta = arcsin(1 / sqrt 2), where the loops as written leave 0 in that row |
| TreatData.ComputeData | treatData.py:65-90 | every row gets its amplitude, beta and gamma == pi - beta |
| TreatData.RunTreatData | treatData.py:6-32 | the import fails exactly when some file fails, and reports the first failing row; otherwise every row holds its file's landmarks, rows 0..nFiles-2 hold their amplitude, beta and pi - beta, and the last row holds ampl = beta = 0 and gamma = pi, as computeData is written |
| TreatData.RunTreatDataCorrected | treatData.py:6-32 | the same driver over the corrected computeData: every row holds its file's landmarks and their amplitude, beta and pi - beta |

## Left out

- OpenCV: gray conversion, Gaussian and median blur, Canny, `findContours`, thinning,
  `contourArea` and `arcLength` are inputs (`SwimTunnel.Vision`). The model does not
  look inside them. `SwimTunnel.KeepsShape` states only that the frame-to-frame calls
  keep dimensions.
- `cv.selectROI` is replaced by the `roi` parameter. The drawing calls (`boundingRect`,
  `polylines`, `rectangle`, `drawContours`), the `imshow`/`waitKey` windows and
  `destroyAllWindows`/`release` are display and resource handling only.
- `swimTunnel` returns nothing in the source. The model returns the two counters so
  that their final values can be stated.
- SwimTunnel.GetFishContours and SwimTunnel.GetFishSkeleton: `np.size(contours)` is taken
  to be the number of contours. When all contours have the same shape, which includes
  the case of a single contour, numpy counts every coordinate instead, so
  `range(np.size(contours))` runs past the end of the list and `contours[1]` raises
  IndexError (swimTunnel.py:91 and :121). The model returns the selected contour there.
  When the contours have different shapes, numpy 1.24 and later raise ValueError on
  `np.size` of the ragged list instead of counting the contours; the model counts them.
- numpy's default sort is not stable. The model sorts stably, and
  `TreatData.ArgsortIsIrrelevant` shows that the order of equal-x points never reaches
  the result.
- Floating-point rounding: `Floats` values are exact reals, and `np.sqrt`, `np.arcsin`
  and `np.pi` are inputs. Properties are stated over the integer cross product and
  squared norms.
- TreatData.Beta and TreatData.SinAlpha: "beta is a number exactly when the landmarks are
  pairwise distinct" and "sinAlpha lies in [-1, 1]" hold over exact reals only. When
  tail lies on the perpendicular to the head axis through headPe (beta at ±90°), float64
  rounding can put the quotient just outside [-1, 1]: for tail (52, -20), headPe (60, 0),
  head (80, -8) the arcsin argument rounds to -1.0000000000000002, so `np.arcsin` gives
  NaN and gamma is NaN, where the model gives a number.
- int64 overflow of the squared coordinate differences in `computeData` is not
  modelled. Coordinates are unbounded integers.
- File I/O is not modelled. This covers directory creation, counting the `*.npy` files
  (nFiles is a parameter), `np.load` (the files are a sequence), `exportData` with its
  CSV and `.npy` output, and the progress `print`s.
- The call sites in the GUI front-ends and the module's own `__main__` call
  `treatData` and `swimTunnel` with other arguments. The model follows the
  definitions.

## Findings

| source | as written | input that shows it | evidently intended | confidence | as-written member | corrected member |
|---|---|---|---|---|---|---|
| treatData.py:72-82 | both loops of `computeData` run over `range(0, nFiles-1)`, so the last frame is never computed: it keeps ampl = beta = 0 and gets gamma = pi, and these values are exported as if they were measured | a last frame with tail (0, 1), headPe (1, 0), head (2, 0) has amplitude 1, but row nFiles-1 holds 0 (TreatData.SkippedFrameIsNotZero) | `range(0, nFiles)`, one computed row per skeleton file | medium, not executed | TreatData.ComputeDataAsWritten | TreatData.ComputeData |

`TreatData.RunTreatData` calls `TreatData.ComputeDataAsWritten`, as the driver does.
`TreatData.RunTreatDataCorrected` is the same driver over `TreatData.ComputeData`.
