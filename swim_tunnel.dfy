/** The per-frame extraction rules of swimTunnel.py: the region-of-interest
    crop, the gamma lookup table and binary threshold of `preprocess`, the
    two contour-selection loops and the frame-counting walk over the video.
    Every OpenCV call is a field of `Vision`, an input the model does not
    look inside. */
module SwimTunnel {
  import opened Results

  /** An 8-bit intensity, numpy's uint8. */
  type Byte = x: int | 0 <= x < 256

  /** A colour pixel as the video decoder delivers it. */
  datatype Bgr = Bgr(b: Byte, g: Byte, r: Byte)

  /** A raster indexed [row][column]. */
  type Image<P> = seq<seq<P>>

  /** An integer contour point as OpenCV returns it. */
  type Contour = seq<(int, int)>

  /** The rectangle (x, y, w, h) the ROI selector returns. */
  datatype Rect = Rect(x: nat, y: nat, w: nat, h: nat)

  /** The OpenCV calls of swimTunnel.py, given as functions. */
  datatype Vision = Vision(
    toGray: Image<Bgr> -> Image<Byte>,             // cvtColor(frame, COLOR_BGR2GRAY)
    smooth: Image<Byte> -> Image<Byte>,            // GaussianBlur 3x3, then medianBlur 9
    edgeContours: Image<Byte> -> seq<Contour>,     // Canny(100, 200), then findContours(RETR_TREE)
    skeletonContours: Image<Byte> -> seq<Contour>, // Zhang-Suen thinning, then findContours(RETR_CCOMP)
    area: Contour -> real,                         // contourArea(c, False)
    arcLength: Contour -> real)                    // arcLength(c, False)

  ghost predicate IsMatrix<P>(f: Image<P>) {
    forall i, j :: 0 <= i < |f| && 0 <= j < |f| ==> |f[i]| == |f[j]|
  }

  function Width<P>(f: Image<P>): nat {
    if |f| == 0 then 0 else |f[0]|
  }

  ghost predicate SameShape<P, Q>(a: Image<P>, b: Image<Q>) {
    |a| == |b| && forall i :: 0 <= i < |a| ==> |a[i]| == |b[i]|
  }

  /** The library calls that return a frame keep its dimensions. */
  ghost predicate KeepsShape(cv: Vision) {
    && (forall f: Image<Bgr> :: IsMatrix(f) ==> SameShape(cv.toGray(f), f))
    && (forall g: Image<Byte> :: IsMatrix(g) ==> SameShape(cv.smooth(g), g))
  }

  // ---------------------------------------------------------------------
  // Step 1: the ROI crop  frame[y:y+h, x:x+w]

  function Min(a: nat, b: nat): nat { if a <= b then a else b }

  /** Python's s[lo:hi] for non-negative bounds: both ends are clamped to |s|. */
  function Slice<T>(s: seq<T>, lo: nat, hi: nat): (r: seq<T>)
    ensures |r| == if Min(lo, |s|) <= Min(hi, |s|) then Min(hi, |s|) - Min(lo, |s|) else 0
    ensures forall k :: 0 <= k < |r| ==> lo + k < |s| && r[k] == s[lo + k]
  {
    var a, b := Min(lo, |s|), Min(hi, |s|);
    if a <= b then s[a..b] else []
  }

  /** The crop of swimTunnel.py:30, rows first and then columns of each row. */
  function Crop<P>(frame: Image<P>, c: Rect): (r: Image<P>)
    ensures |r| == Min(c.y + c.h, |frame|) - Min(c.y, |frame|)
    ensures forall i, j :: 0 <= i < |r| && 0 <= j < |r[i]| ==>
              c.y + i < |frame| && c.x + j < |frame[c.y + i]| && r[i][j] == frame[c.y + i][c.x + j]
    ensures forall i :: 0 <= i < |r| ==>
              |r[i]| == Min(c.x + c.w, |frame[c.y + i]|) - Min(c.x, |frame[c.y + i]|)
  {
    var rows := Slice(frame, c.y, c.y + c.h);
    assert |rows| == Min(c.y + c.h, |frame|) - Min(c.y, |frame|);
    assert forall i :: 0 <= i < |rows| ==> rows[i] == frame[c.y + i];
    seq(|rows|, i requires 0 <= i < |rows| => Slice(rows[i], c.x, c.x + c.w))
  }

  /** A rectangle inside the frame crops to exactly h rows of w pixels, and
      pixel (r, c) of the crop is pixel (y + r, x + c) of the frame. */
  lemma CropInBounds<P>(frame: Image<P>, c: Rect)
    requires IsMatrix(frame)
    requires c.y + c.h <= |frame| && c.x + c.w <= Width(frame)
    ensures |Crop(frame, c)| == c.h
    ensures forall i :: 0 <= i < c.h ==> |Crop(frame, c)[i]| == c.w
    ensures forall i, j :: 0 <= i < c.h && 0 <= j < c.w ==> Crop(frame, c)[i][j] == frame[c.y + i][c.x + j]
  {
    var r := Crop(frame, c);
    forall i | 0 <= i < c.h
      ensures |r[i]| == c.w
    {
      assert |frame[c.y + i]| == |frame[0]|;
    }
  }

  /** A raster with no pixels, which OpenCV refuses. */
  predicate IsEmpty<P>(f: Image<P>) {
    |f| == 0 || |f[0]| == 0
  }

  /** The crop of a frame has no pixels exactly when the rectangle has no
      width or height, or starts right of or below the frame. */
  lemma CropEmpty<P>(frame: Image<P>, c: Rect)
    requires IsMatrix(frame)
    ensures IsEmpty(Crop(frame, c)) <==> c.w == 0 || c.h == 0 || c.x >= Width(frame) || c.y >= |frame|
  {
    var r := Crop(frame, c);
    if |r| > 0 {
      assert |frame[c.y]| == Width(frame);
    }
  }

  // ---------------------------------------------------------------------
  // Step 2: preprocess -- gray, gamma lookup table, optional blur, optional threshold

  /** r is the integer square root of n. */
  predicate IsFloorSqrt(r: int, n: int) {
    0 <= r && r * r <= n < (r + 1) * (r + 1)
  }

  /** The integer square root. */
  function ISqrt(n: nat): (r: nat)
    ensures IsFloorSqrt(r, n)
  {
    if n == 0 then 0
    else
      var s := ISqrt(n - 1);
      assert (s + 1) * (s + 1) < (s + 2) * (s + 2);
      if (s + 1) * (s + 1) <= n then s + 1 else s
  }

  lemma SquareMonotone(a: nat, b: nat)
    requires a <= b
    ensures a * a <= b * b
  {
    assert a * a <= a * b <= b * b;
  }

  /** A number has one integer square root. */
  lemma RootUnique(n: nat, a: nat, b: nat)
    requires IsFloorSqrt(a, n) && IsFloorSqrt(b, n)
    ensures a == b
  {
    if a < b {
      SquareMonotone(a + 1, b);
    } else if b < a {
      SquareMonotone(b + 1, a);
    }
  }

  /** Entry i of the gamma table: trunc(sqrt(i / 255) * 255) equals the
      floor of sqrt(255 * i). */
  function GammaEntry(i: nat): (r: Byte)
    requires i < 256
    ensures IsFloorSqrt(r, 255 * i)
  {
    var s := ISqrt(255 * i);
    assert s < 256 by {
      if s >= 256 { SquareMonotone(256, s); }
    }
    s
  }

  /** The lookup table of swimTunnel.py:60-61 (invGamma = 1/2, cast to uint8). */
  function GammaTable(): (t: seq<Byte>)
    ensures |t| == 256
    ensures forall i :: 0 <= i < 256 ==> IsFloorSqrt(t[i], 255 * i)
  {
    seq(256, i requires 0 <= i < 256 => GammaEntry(i))
  }

  /** The table keeps black black and white white. */
  lemma GammaTableEnds()
    ensures GammaTable()[0] == 0
    ensures GammaTable()[255] == 255
  {
    var t := GammaTable();
    RootUnique(0, t[0], 0);
    RootUnique(255 * 255, t[255], 255);
  }

  /** The table is non-decreasing. */
  lemma GammaTableMonotone(i: nat, j: nat)
    requires i <= j < 256
    ensures GammaTable()[i] <= GammaTable()[j]
  {
    var t := GammaTable();
    if t[j] < t[i] {
      SquareMonotone(t[j] + 1, t[i]);
    }
  }

  /** The table never darkens a pixel: table[i] >= i. */
  lemma GammaTableBrightens(i: nat)
    requires i < 256
    ensures GammaTable()[i] >= i
  {
    var t := GammaTable();
    ScaleMonotone(i, 255, i);
    if t[i] < i {
      SquareMonotone(t[i] + 1, i);
    }
  }

  lemma ScaleMonotone(a: nat, b: nat, c: nat)
    requires a <= b
    ensures a * c <= b * c
  {
  }

  /** After the table, a pixel is at most 110 exactly when its gray value is at most 48. */
  lemma GammaTableCut(p: nat)
    requires p < 256
    ensures GammaTable()[p] <= 110 <==> p <= 48
  {
    var t := GammaTable();
    if p <= 48 {
      if t[p] >= 111 { SquareMonotone(111, t[p]); }
    } else {
      if t[p] <= 110 { SquareMonotone(t[p] + 1, 111); }
    }
  }

  /** cv.LUT: every pixel replaced by its table entry. */
  function ApplyLut(f: Image<Byte>, table: seq<Byte>): (r: Image<Byte>)
    requires |table| == 256
    ensures SameShape(r, f)
    ensures forall i, j :: 0 <= i < |r| && 0 <= j < |r[i]| ==> r[i][j] == table[f[i][j]]
  {
    seq(|f|, i requires 0 <= i < |f| => seq(|f[i]|, j requires 0 <= j < |f[i]| => table[f[i][j]]))
  }

  /** cv.inRange(frame, lo, hi) on one channel. */
  function InRange(f: Image<Byte>, lo: int, hi: int): (r: Image<Byte>)
    ensures SameShape(r, f)
    ensures forall i, j :: 0 <= i < |r| && 0 <= j < |r[i]| ==> r[i][j] == 0 || r[i][j] == 255
    ensures forall i, j :: 0 <= i < |r| && 0 <= j < |r[i]| ==> (r[i][j] == 255 <==> lo <= f[i][j] <= hi)
  {
    seq(|f|, i requires 0 <= i < |f| =>
      seq(|f[i]|, j requires 0 <= j < |f[i]| => if lo <= f[i][j] <= hi then 255 else 0))
  }

  /** The upper bound of the binary threshold. */
  const DarkMax: int := 110

  /** preprocess of swimTunnel.py:54-77 (the debug window left out). On a
      frame with no pixels cvtColor raises; its one caller, ProcessFrame,
      stops before that. */
  function Preprocess(frame: Image<Bgr>, blur: bool, threshold: bool, cv: Vision): (r: Image<Byte>)
    ensures threshold ==> forall i, j :: 0 <= i < |r| && 0 <= j < |r[i]| ==> r[i][j] == 0 || r[i][j] == 255
  {
    var gray := cv.toGray(frame);
    var corrected := ApplyLut(gray, GammaTable());
    var smoothed := if blur then cv.smooth(corrected) else corrected;
    if threshold then InRange(smoothed, 0, DarkMax) else smoothed
  }

  /** preprocess never changes the dimensions of the frame. */
  lemma PreprocessKeepsShape(frame: Image<Bgr>, blur: bool, threshold: bool, cv: Vision)
    requires KeepsShape(cv) && IsMatrix(frame)
    ensures SameShape(Preprocess(frame, blur, threshold, cv), frame)
  {
    var gray := cv.toGray(frame);
    var corrected := ApplyLut(gray, GammaTable());
    assert SameShape(corrected, frame);
    if blur {
      assert IsMatrix(corrected) by {
        forall i, j | 0 <= i < |corrected| && 0 <= j < |corrected|
          ensures |corrected[i]| == |corrected[j]|
        {
          assert |frame[i]| == |frame[j]|;
        }
      }
    }
  }

  /** Without blur or threshold only the gray conversion and the table apply. */
  lemma PreprocessPlain(frame: Image<Bgr>, cv: Vision)
    ensures var gray, r := cv.toGray(frame), Preprocess(frame, false, false, cv);
      && SameShape(r, gray)
      && forall i, j :: 0 <= i < |r| && 0 <= j < |r[i]| ==> r[i][j] == GammaTable()[gray[i][j]]
  {
  }

  /** With threshold and without blur, a pixel turns white exactly when its
      gray value is at most 48: the table maps 0..48 into 0..110 and 49..255 above it. */
  lemma PreprocessThresholdCut(frame: Image<Bgr>, cv: Vision)
    ensures var gray, r := cv.toGray(frame), Preprocess(frame, false, true, cv);
      && SameShape(r, gray)
      && forall i, j :: 0 <= i < |r| && 0 <= j < |r[i]| ==> (r[i][j] == 255 <==> gray[i][j] <= 48)
  {
    var gray, r := cv.toGray(frame), Preprocess(frame, false, true, cv);
    forall i, j | 0 <= i < |r| && 0 <= j < |r[i]|
      ensures r[i][j] == 255 <==> gray[i][j] <= 48
    {
      GammaTableCut(gray[i][j]);
    }
  }

  // ---------------------------------------------------------------------
  // Step 3: contour selection

  /** The fish silhouette's area band, both ends excluded (swimTunnel.py:93). */
  const FishAreaMin: real := 5500.0
  const FishAreaMax: real := 6500.0

  predicate InFishBand(a: real) {
    FishAreaMin < a < FishAreaMax
  }

  /** iFishContour once the loop of getFishContours has seen cs. */
  function FishContourIndex(cs: seq<Contour>, area: Contour -> real): (k: nat)
    ensures |cs| > 0 ==> k < |cs|
  {
    if |cs| == 0 then 0
    else if InFishBand(area(cs[|cs| - 1])) then |cs| - 1
    else FishContourIndex(cs[..|cs| - 1], area)
  }

  /** The chosen index is the LAST one whose area lies in the band, and 0 when none does. */
  lemma {:induction false} FishContourIsLastInBand(cs: seq<Contour>, area: Contour -> real)
    requires |cs| > 0
    ensures var k := FishContourIndex(cs, area);
      && k < |cs|
      && ((exists i :: 0 <= i < |cs| && InFishBand(area(cs[i]))) ==>
            InFishBand(area(cs[k])) && forall j :: k < j < |cs| ==> !InFishBand(area(cs[j])))
      && ((forall i :: 0 <= i < |cs| ==> !InFishBand(area(cs[i]))) ==> k == 0)
  {
    var n := |cs|;
    if !InFishBand(area(cs[n - 1])) && n > 1 {
      var init := cs[..n - 1];
      FishContourIsLastInBand(init, area);
      assert forall i :: 0 <= i < n - 1 ==> init[i] == cs[i];
    }
  }

  datatype FrameError =
    | EmptyFrame       // cvtColor on a crop with no pixels raises
    | NoContours       // contours[iFishContour] on an empty list: IndexError
    | SkeletonUnbound  // no arc length above 0: iFishSkeleton never bound

  /** What getFishContours returns for a preprocessed frame. */
  function FishContour(frame: Image<Byte>, cv: Vision): Result<Contour, FrameError> {
    var cs := cv.edgeContours(frame);
    if |cs| == 0 then Err(NoContours) else Ok(cs[FishContourIndex(cs, cv.area)])
  }

  /** getFishContours of swimTunnel.py:79-108 (the debug drawing left out). */
  method GetFishContours(frame: Image<Byte>, cv: Vision) returns (r: Result<Contour, FrameError>)
    ensures r == FishContour(frame, cv)
  {
    var contours := cv.edgeContours(frame);
    var iFishContour := 0;
    for i := 0 to |contours|
      invariant iFishContour == FishContourIndex(contours[..i], cv.area)
    {
      assert contours[..i + 1][..i] == contours[..i];
      var area := cv.area(contours[i]);
      if FishAreaMin < area && area < FishAreaMax {
        iFishContour := i;
      }
    }
    assert contours[..|contours|] == contours;
    if iFishContour < |contours| {
      r := Ok(contours[iFishContour]);
    } else {
      r := Err(NoContours);
    }
  }

  /** (maxLen, iFishSkeleton) once the loop of getFishSkeleton has seen cs;
      None while iFishSkeleton is still unbound. */
  function SkeletonScan(cs: seq<Contour>, len: Contour -> real): (s: (real, Option<nat>))
    ensures s.0 >= 0.0
    ensures s.1.Some? ==> s.1.value < |cs| && s.0 == len(cs[s.1.value])
  {
    if |cs| == 0 then (0.0, None)
    else
      var prev := SkeletonScan(cs[..|cs| - 1], len);
      if len(cs[|cs| - 1]) > prev.0 then (len(cs[|cs| - 1]), Some(|cs| - 1)) else prev
  }

  /** The scan binds an index exactly when some arc length is positive, and
      then picks the FIRST contour of maximal arc length (later ties lose). */
  lemma {:induction false} SkeletonIsFirstLongest(cs: seq<Contour>, len: Contour -> real)
    ensures var s := SkeletonScan(cs, len);
      && (s.1.None? <==> forall j :: 0 <= j < |cs| ==> len(cs[j]) <= 0.0)
      && (s.1.None? ==> s.0 == 0.0)
      && (s.1.Some? ==>
            var k := s.1.value;
            && k < |cs|
            && len(cs[k]) > 0.0
            && (forall j :: 0 <= j < |cs| ==> len(cs[j]) <= len(cs[k]))
            && (forall j :: 0 <= j < k ==> len(cs[j]) < len(cs[k])))
  {
    if |cs| > 0 {
      var n := |cs|;
      var init := cs[..n - 1];
      SkeletonIsFirstLongest(init, len);
      assert forall i :: 0 <= i < n - 1 ==> init[i] == cs[i];
    }
  }

  /** What getFishSkeleton returns for a preprocessed frame. */
  function FishSkeleton(frame: Image<Byte>, cv: Vision): Result<Contour, FrameError> {
    var cs := cv.skeletonContours(frame);
    match SkeletonScan(cs, cv.arcLength).1
    case None => Err(SkeletonUnbound)
    case Some(k) => Ok(cs[k])
  }

  /** getFishSkeleton of swimTunnel.py:110-126. */
  method GetFishSkeleton(frame: Image<Byte>, cv: Vision) returns (r: Result<Contour, FrameError>)
    ensures r == FishSkeleton(frame, cv)
  {
    var contours := cv.skeletonContours(frame);
    var maxLen := 0.0;
    var iFishSkeleton: Option<nat> := None;
    for i := 0 to |contours|
      invariant (maxLen, iFishSkeleton) == SkeletonScan(contours[..i], cv.arcLength)
    {
      assert contours[..i + 1][..i] == contours[..i];
      var length := cv.arcLength(contours[i]);
      if length > maxLen {
        maxLen := length;
        iFishSkeleton := Some(i);
      }
    }
    assert contours[..|contours|] == contours;
    match iFishSkeleton
    case None => r := Err(SkeletonUnbound);
    case Some(k) => r := Ok(contours[k]);
  }

  // ---------------------------------------------------------------------
  // The walk over the video

  /** An opened-or-not video and the frames read() yields before it yields None. */
  datatype Video = Video(isOpen: bool, frames: seq<Image<Bgr>>)

  /** The frame vid.read() yields after `pos` earlier reads, or None. */
  function Read(v: Video, pos: nat): Option<Image<Bgr>> {
    if pos < |v.frames| then Some(v.frames[pos]) else None
  }

  datatype Counters = Counters(totalFrames: nat, failFrames: nat)

  datatype RunError =
    | CannotOpen                                // "Could not open the video reference"
    | NoFirstFrame                              // selectROI on the None of an empty video raises
    | FrameFailed(index: nat, cause: FrameError)

  /** Steps 1 to 3.2 of the loop body for one frame: the fish contour and
      skeleton, or the error that stops the walk. A crop with no pixels
      (an empty or off-frame ROI) makes cvtColor raise. */
  function ProcessFrame(frame: Image<Bgr>, roi: Rect, cv: Vision): Result<(Contour, Contour), FrameError> {
    var cropped := Crop(frame, roi);
    if IsEmpty(cropped) then Err(EmptyFrame)
    else
      var pre := Preprocess(cropped, true, true, cv);
      match FishContour(pre, cv)
      case Err(e) => Err(e)
      case Ok(body) =>
        match FishSkeleton(pre, cv)
        case Err(e) => Err(e)
        case Ok(skeleton) => Ok((body, skeleton))
  }

  /** Steps 1 to 3.2 of the loop body, in the order the loop runs them:
      the skeleton is not searched for when the contour selection raises. */
  method SelectFish(frame: Image<Bgr>, roi: Rect, cv: Vision) returns (r: Result<(Contour, Contour), FrameError>)
    ensures r == ProcessFrame(frame, roi, cv)
  {
    var cropped := Crop(frame, roi);
    if IsEmpty(cropped) {
      return Err(EmptyFrame);
    }
    var pre := Preprocess(cropped, true, true, cv);
    var fishContours := GetFishContours(pre, cv);
    if fishContours.Err? {
      return Err(fishContours.error);
    }
    var fishSkeleton := GetFishSkeleton(pre, cv);
    if fishSkeleton.Err? {
      return Err(fishSkeleton.error);
    }
    return Ok((fishContours.value, fishSkeleton.value));
  }

  /** swimTunnel of swimTunnel.py:5-52. The ROI chosen on the first frame
      is the input `roi`; drawing and display are left out. A video without
      a first frame makes the ROI selection raise. Every frame read is
      counted once; the run stops at the first frame whose processing raises. */
  method RunSwimTunnel(video: Video, roi: Rect, cv: Vision) returns (r: Result<Counters, RunError>)
    ensures !video.isOpen ==> r == Err(CannotOpen)
    ensures video.isOpen && video.frames == [] ==> r == Err(NoFirstFrame)
    ensures r.Ok? <==> video.isOpen && video.frames != [] && forall i :: 0 <= i < |video.frames| ==> ProcessFrame(video.frames[i], roi, cv).Ok?
    ensures r.Ok? ==> r.value == Counters(|video.frames|, 0)
    ensures video.isOpen && video.frames != [] && r.Err? ==> r.error.FrameFailed?
    ensures r.Err? && r.error.FrameFailed? ==>
              var k := r.error.index;
              && video.isOpen
              && k < |video.frames|
              && ProcessFrame(video.frames[k], roi, cv) == Err(r.error.cause)
              && forall i :: 0 <= i < k ==> ProcessFrame(video.frames[i], roi, cv).Ok?
  {
    if !video.isOpen {
      return Err(CannotOpen);
    }
    var frame := Read(video, 0);
    if frame.None? {
      return Err(NoFirstFrame);
    }
    r := WalkFrames(video, roi, cv);
  }

  /** The while loop of swimTunnel.py:25-48, from the first frame read to
      the None that ends the stream. */
  method WalkFrames(video: Video, roi: Rect, cv: Vision) returns (r: Result<Counters, RunError>)
    ensures r.Ok? <==> forall i :: 0 <= i < |video.frames| ==> ProcessFrame(video.frames[i], roi, cv).Ok?
    ensures r.Ok? ==> r.value == Counters(|video.frames|, 0)
    ensures r.Err? ==>
              && r.error.FrameFailed?
              && var k := r.error.index;
              && k < |video.frames|
              && ProcessFrame(video.frames[k], roi, cv) == Err(r.error.cause)
              && forall i :: 0 <= i < k ==> ProcessFrame(video.frames[i], roi, cv).Ok?
  {
    var totalFrames := 0;
    var failFrames := 0;
    var frame := Read(video, 0);
    var readCount := 1;
    while frame.Some?
      invariant 1 <= readCount <= |video.frames| + 1
      invariant frame == Read(video, readCount - 1)
      invariant totalFrames == readCount - 1 && failFrames == 0
      invariant forall i :: 0 <= i < totalFrames ==> ProcessFrame(video.frames[i], roi, cv).Ok?
      decreases |video.frames| + 1 - readCount
    {
      totalFrames := totalFrames + 1;
      var selected := SelectFish(frame.value, roi, cv);
      if selected.Err? {
        return Err(FrameFailed(totalFrames - 1, selected.error));
      }
      frame := Read(video, readCount);
      readCount := readCount + 1;
    }
    return Ok(Counters(totalFrames, failFrames));
  }
}
