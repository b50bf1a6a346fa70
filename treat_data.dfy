/** The skeleton post-processing and tail-angle geometry of treatData.py.
    importData turns each frame's skeleton file into three landmarks (tail,
    head, and the point AxisLon places before the head); computeData turns
    each landmark triple into an amplitude and two angles. File I/O is left
    out: the skeleton files are an input sequence. */
module TreatData {
  import opened Results
  import opened Floats

  /** A skeleton point; image coordinates before pre-treatment, Cartesian after. */
  datatype Point = Point(x: int, y: int)

  /** Length of the head axis headP-headPe, in skeleton points (treatData.py:9). */
  const AxisLon: int := 50

  /** A skeleton file as np.load returns it: its first dimension and its
      values in row-major order. */
  datatype SkeletonFile = SkeletonFile(rows: nat, data: seq<int>)

  // ---------------------------------------------------------------------
  // np.reshape(A, (np.size(A, 0), 2))

  function Flatten(ps: seq<Point>): (r: seq<int>)
    ensures |r| == 2 * |ps|
  {
    if ps == [] then [] else [ps[0].x, ps[0].y] + Flatten(ps[1..])
  }

  lemma {:induction false} FlattenAt(ps: seq<Point>, i: nat)
    requires i < |ps|
    ensures Flatten(ps)[2 * i] == ps[i].x && Flatten(ps)[2 * i + 1] == ps[i].y
  {
    if i > 0 {
      FlattenAt(ps[1..], i - 1);
    }
  }

  /** The reshape of treatData.py:51; numpy refuses it unless the array holds
      exactly two values per row. */
  function Reshape(f: SkeletonFile): (r: Option<seq<Point>>)
    ensures r.Some? <==> |f.data| == 2 * f.rows
    ensures r.Some? ==> |r.value| == f.rows
  {
    if |f.data| != 2 * f.rows then None
    else Some(seq(f.rows, i requires 0 <= i < f.rows => Point(f.data[2 * i], f.data[2 * i + 1])))
  }

  /** Reshaping loses and invents nothing: flattening the pairs gives back the data. */
  lemma ReshapeRoundTrip(f: SkeletonFile)
    requires |f.data| == 2 * f.rows
    ensures Flatten(Reshape(f).value) == f.data
  {
    var ps := Reshape(f).value;
    forall k | 0 <= k < |f.data|
      ensures Flatten(ps)[k] == f.data[k]
    {
      FlattenAt(ps, k / 2);
    }
  }

  /** ... and reshaping the flattened pairs gives back the pairs. */
  lemma FlattenRoundTrip(ps: seq<Point>)
    ensures Reshape(SkeletonFile(|ps|, Flatten(ps))) == Some(ps)
  {
    var f := SkeletonFile(|ps|, Flatten(ps));
    PairsOfFlatten(ps, Reshape(f).value);
  }

  lemma PairsOfFlatten(ps: seq<Point>, r: seq<Point>)
    requires |r| == |ps|
    requires forall i :: 0 <= i < |r| ==> r[i] == Point(Flatten(ps)[2 * i], Flatten(ps)[2 * i + 1])
    ensures r == ps
  {
    forall i | 0 <= i < |ps|
      ensures r[i] == ps[i]
    {
      FlattenAt(ps, i);
    }
  }

  // ---------------------------------------------------------------------
  // A[np.argsort(A[:, 0])]

  ghost predicate SortedByX(s: seq<Point>) {
    forall i, j :: 0 <= i < j < |s| ==> s[i].x <= s[j].x
  }

  function InsertByX(p: Point, s: seq<Point>): (r: seq<Point>)
    requires SortedByX(s)
    ensures SortedByX(r)
    ensures |r| == |s| + 1 && (r[0] == p || (s != [] && r[0] == s[0]))
  {
    if s == [] || p.x <= s[0].x then
      SortedCons(p, s);
      [p] + s
    else
      var rest := InsertByX(p, s[1..]);
      SortedCons(s[0], rest);
      [s[0]] + rest
  }

  lemma SortedCons(a: Point, t: seq<Point>)
    requires SortedByX(t) && (t == [] || a.x <= t[0].x)
    ensures SortedByX([a] + t)
  {
    var r := [a] + t;
    forall i, j | 0 <= i < j < |r|
      ensures r[i].x <= r[j].x
    {
      if i == 0 {
        assert r[j] == t[j - 1];
      }
    }
  }

  /** Insertion adds p and loses nothing. */
  lemma {:induction false} InsertByXPermutes(p: Point, s: seq<Point>)
    requires SortedByX(s)
    ensures multiset(InsertByX(p, s)) == multiset(s) + multiset{p}
  {
    if s != [] && s[0].x < p.x {
      InsertByXPermutes(p, s[1..]);
      assert s == [s[0]] + s[1..];
    }
  }

  /** The order of treatData.py:52: x ascending; points of equal x keep
      their order (numpy's default sort leaves that order unspecified, and
      ArgsortIsIrrelevant shows it does not reach the result). */
  function SortByX(s: seq<Point>): (r: seq<Point>)
    ensures SortedByX(r)
  {
    if s == [] then [] else InsertByX(s[0], SortByX(s[1..]))
  }

  /** The sort is a permutation of its input. */
  lemma {:induction false} SortByXPermutes(s: seq<Point>)
    ensures multiset(SortByX(s)) == multiset(s)
  {
    if s != [] {
      SortByXPermutes(s[1..]);
      InsertByXPermutes(s[0], SortByX(s[1..]));
      assert s == [s[0]] + s[1..];
    }
  }

  // ---------------------------------------------------------------------
  // np.unique(A, axis=0)

  predicate LexLess(a: Point, b: Point) {
    a.x < b.x || (a.x == b.x && a.y < b.y)
  }

  ghost predicate StrictlySorted(s: seq<Point>) {
    forall i, j :: 0 <= i < j < |s| ==> LexLess(s[i], s[j])
  }

  function InsertUnique(p: Point, s: seq<Point>): (r: seq<Point>)
    requires StrictlySorted(s)
    ensures StrictlySorted(r)
    ensures forall q :: q in r <==> q == p || q in s
  {
    if s == [] then [p]
    else if p == s[0] then s
    else if LexLess(p, s[0]) then [p] + s
    else
      var rest := InsertUnique(p, s[1..]);
      assert forall k :: 0 <= k < |rest| ==> rest[k] in rest;
      assert forall q :: q in s <==> q == s[0] || q in s[1..];
      [s[0]] + rest
  }

  /** The rows of treatData.py:53: the distinct points in lexicographic (x, y) order. */
  function Unique(s: seq<Point>): (r: seq<Point>)
    ensures StrictlySorted(r)
    ensures forall q :: q in r <==> q in s
  {
    if s == [] then []
    else
      assert forall q :: q in s <==> q == s[0] || q in s[1..];
      InsertUnique(s[0], Unique(s[1..]))
  }

  lemma StrictlySortedTail(a: seq<Point>)
    requires StrictlySorted(a) && a != []
    ensures StrictlySorted(a[1..])
    ensures forall q :: q in a[1..] <==> q in a && q != a[0]
  {
    forall q | q in a[1..]
      ensures q != a[0]
    {
      var i :| 0 <= i < |a[1..]| && a[1..][i] == q;
      assert LexLess(a[0], a[i + 1]);
    }
    assert forall q :: q in a <==> q == a[0] || q in a[1..] by {
      assert a == [a[0]] + a[1..];
    }
  }

  lemma MemberOfNonEmpty(a: seq<Point>)
    requires a != []
    ensures a[0] in a
  {
  }

  /** A strictly sorted sequence is determined by its elements. */
  lemma {:induction false} StrictlySortedIsDetermined(a: seq<Point>, b: seq<Point>)
    requires StrictlySorted(a) && StrictlySorted(b)
    requires forall q :: q in a <==> q in b
    ensures a == b
  {
    if a == [] && b != [] {
      MemberOfNonEmpty(b);
      assert false;
    } else if a != [] && b == [] {
      MemberOfNonEmpty(a);
      assert false;
    } else if a != [] && b != [] {
      assert a[0] == b[0] by {
        assert b[0] in a;
        var i :| 0 <= i < |a| && a[i] == b[0];
        assert a[0] in b;
        var j :| 0 <= j < |b| && b[j] == a[0];
      }
      StrictlySortedTail(a);
      StrictlySortedTail(b);
      StrictlySortedIsDetermined(a[1..], b[1..]);
      assert a == [a[0]] + a[1..] && b == [b[0]] + b[1..];
    }
  }

  /** The unique rows depend on the points only, not on their order: any
      reordering of the input, whatever order numpy's argsort leaves points
      of equal x in, gives the same rows. */
  lemma ArgsortIsIrrelevant(p: seq<Point>, s: seq<Point>)
    requires multiset(p) == multiset(s)
    ensures Unique(p) == Unique(s)
  {
    forall q
      ensures q in p <==> q in s
    {
      assert q in p <==> q in multiset(p);
    }
    StrictlySortedIsDetermined(Unique(p), Unique(s));
  }

  /** In particular the stable x-sort of the model does not reach the result. */
  lemma SortByXIsIrrelevant(s: seq<Point>)
    ensures Unique(SortByX(s)) == Unique(s)
  {
    SortByXPermutes(s);
    ArgsortIsIrrelevant(SortByX(s), s);
  }

  // ---------------------------------------------------------------------
  // A[:, 1] = -A[:, 1]

  function NegateYs(s: seq<Point>): (r: seq<Point>)
    ensures |r| == |s|
  {
    seq(|s|, i requires 0 <= i < |s| => Point(s[i].x, -s[i].y))
  }

  /** The in-place negation of treatData.py:55 (image rows to Cartesian y). */
  method NegateY(a: array<Point>)
    modifies a
    ensures a[..] == NegateYs(old(a[..]))
  {
    for i := 0 to a.Length
      invariant forall k :: 0 <= k < i ==> a[k] == Point(old(a[k]).x, -old(a[k]).y)
      invariant forall k :: i <= k < a.Length ==> a[k] == old(a[k])
    {
      a[i] := Point(a[i].x, -a[i].y);
    }
  }

  /** The pre-treated skeleton of treatData.py:51-55, from the reshaped points.
      No point repeats and x never decreases along the list; points of equal x
      come with decreasing y (the sort was on the image row, before the sign
      change). */
  function Pretreat(ps: seq<Point>): (r: seq<Point>)
    ensures forall i, j :: 0 <= i < j < |r| ==>
      r[i] != r[j] && r[i].x <= r[j].x && (r[i].x == r[j].x ==> r[i].y > r[j].y)
  {
    var u := Unique(SortByX(ps));
    assert forall i, j :: 0 <= i < j < |u| ==> LexLess(u[i], u[j]);
    NegateYs(u)
  }

  /** (x, y) is a pre-treated point exactly when (x, -y) was a loaded point:
      only de-duplication and the sign change of y happen. */
  lemma PretreatKeepsPoints(ps: seq<Point>)
    ensures forall q :: q in Pretreat(ps) <==> Point(q.x, -q.y) in ps
  {
    var sorted := SortByX(ps);
    SortByXPermutes(ps);
    var u := Unique(sorted);
    var r := NegateYs(u);
    forall q
      ensures q in r <==> Point(q.x, -q.y) in ps
    {
      var p := Point(q.x, -q.y);
      assert p in sorted <==> p in multiset(sorted);
      if q in r {
        var i :| 0 <= i < |r| && r[i] == q;
        assert u[i] == p;
      }
      if p in u {
        var i :| 0 <= i < |u| && u[i] == p;
        assert r[i] == q;
      }
    }
  }

  // ---------------------------------------------------------------------
  // tailP[i] = A[0], headP[i] = A[-1], headPe[i] = A[-axisLon]

  datatype Landmarks = Landmarks(tail: Point, head: Point, headPe: Point)

  /** The position Python's index k selects in a sequence of n items, or None
      when it raises IndexError. */
  function PyIndex(n: nat, k: int): (r: Option<nat>)
    ensures r.Some? <==> -(n as int) <= k < n
    ensures r.Some? ==> r.value < n
  {
    if 0 <= k < n then Some(k)
    else if -(n as int) <= k < 0 then Some(n + k)
    else None
  }

  /** The landmark pick of treatData.py:58-60; None where an index raises. */
  function PickLandmarks(a: seq<Point>, axisLon: int): (r: Option<Landmarks>)
    ensures r.Some? <==> -|a| < axisLon <= |a|
    ensures r.Some? ==>
      && r.value.tail == a[0]
      && r.value.head == a[|a| - 1]
      && (axisLon > 0 ==> r.value.headPe == a[|a| - axisLon])
      && (axisLon <= 0 ==> r.value.headPe == a[-axisLon])
  {
    if |a| == 0 then None
    else
      match PyIndex(|a|, -axisLon)
      case None => None
      case Some(k) => Some(Landmarks(a[0], a[|a| - 1], a[k]))
  }

  /** The pick needs at least AxisLon distinct points; then the tail is the
      point of least x, the head the point of greatest x, and headPe the
      point AxisLon places from the end. */
  lemma LandmarksOfSkeleton(ps: seq<Point>)
    ensures var r := Pretreat(ps);
      var l := PickLandmarks(r, AxisLon);
      && (l.Some? <==> |r| >= AxisLon)
      && (l.Some? ==>
            && l.value.tail == r[0]
            && l.value.head == r[|r| - 1]
            && l.value.headPe == r[|r| - AxisLon]
            && forall q :: q in r ==> l.value.tail.x <= q.x <= l.value.head.x)
  {
    var r := Pretreat(ps);
    forall q | q in r
      ensures r[0].x <= q.x <= r[|r| - 1].x
    {
      var i :| 0 <= i < |r| && r[i] == q;
    }
  }

  datatype ImportFailure =
    | MissingFile   // np.load finds no file for this row
    | BadShape      // np.reshape refuses the array
    | TooFewPoints  // A[0] or A[-axisLon] raises IndexError

  datatype ImportError = ImportError(row: nat, failure: ImportFailure)

  /** The landmarks one skeleton file yields, or why the import raises on it. */
  function FileLandmarks(f: SkeletonFile, axisLon: int): Result<Landmarks, ImportFailure> {
    match Reshape(f)
    case None => Err(BadShape)
    case Some(ps) =>
      match PickLandmarks(Pretreat(ps), axisLon)
      case None => Err(TooFewPoints)
      case Some(l) => Ok(l)
  }

  /** Row i of tailP, headP and headPe, taken from skeleton file i + 1 (files[i]). */
  function RowLandmarks(files: seq<SkeletonFile>, i: nat, axisLon: int): Result<Landmarks, ImportFailure> {
    if i >= |files| then Err(MissingFile) else FileLandmarks(files[i], axisLon)
  }

  /** The body of the importData loop for one file: reshape, sort, unique,
      the in-place sign change of y, and the three picks. */
  method LoadLandmarks(f: SkeletonFile, axisLon: int) returns (r: Result<Landmarks, ImportFailure>)
    ensures r == FileLandmarks(f, axisLon)
  {
    var shaped := Reshape(f);
    if shaped.None? {
      return Err(BadShape);
    }
    var u := Unique(SortByX(shaped.value));
    var a := new Point[|u|](k requires 0 <= k < |u| => u[k]);
    assert a[..] == u;
    NegateY(a);
    assert a[..] == Pretreat(shaped.value);
    if a.Length == 0 {
      return Err(TooFewPoints);
    }
    var pe := PyIndex(a.Length, -axisLon);
    if pe.None? {
      return Err(TooFewPoints);
    }
    return Ok(Landmarks(a[0], a[a.Length - 1], a[pe.value]));
  }

  /** np.load of skeleton file i + 1, then the loop body on it. */
  method LoadRow(files: seq<SkeletonFile>, i: nat, axisLon: int) returns (r: Result<Landmarks, ImportFailure>)
    ensures r == RowLandmarks(files, i, axisLon)
  {
    if i >= |files| {
      return Err(MissingFile);
    }
    r := LoadLandmarks(files[i], axisLon);
  }

  /** The loop of importData of treatData.py:35-62: preallocated landmark
      arrays filled row by row; the first row whose file fails stops the
      import, and every row before it has been filled. */
  method ImportData(files: seq<SkeletonFile>, axisLon: int, nFiles: nat)
    returns (tailP: array<Point>, headP: array<Point>, headPe: array<Point>, err: Option<ImportError>)
    ensures fresh(tailP) && fresh(headP) && fresh(headPe)
    ensures tailP.Length == nFiles && headP.Length == nFiles && headPe.Length == nFiles
    ensures err.None? <==> forall i :: 0 <= i < nFiles ==> RowLandmarks(files, i, axisLon).Ok?
    ensures err.Some? ==>
              && err.value.row < nFiles
              && RowLandmarks(files, err.value.row, axisLon) == Err(err.value.failure)
              && forall i :: 0 <= i < err.value.row ==> RowLandmarks(files, i, axisLon).Ok?
    ensures forall i :: 0 <= i < nFiles && (err.None? || i < err.value.row) ==>
              RowLandmarks(files, i, axisLon) == Ok(Landmarks(tailP[i], headP[i], headPe[i]))
  {
    err := None;
    tailP := new Point[nFiles](_ => Point(0, 0));
    headP := new Point[nFiles](_ => Point(0, 0));
    headPe := new Point[nFiles](_ => Point(0, 0));
    for i := 0 to nFiles
      invariant forall k :: 0 <= k < i ==>
                  RowLandmarks(files, k, axisLon) == Ok(Landmarks(tailP[k], headP[k], headPe[k]))
    {
      var row := LoadRow(files, i, axisLon);
      if row.Err? {
        err := Some(ImportError(i, row.error));
        return;
      }
      tailP[i] := row.value.tail;
      headP[i] := row.value.head;
      headPe[i] := row.value.headPe;
    }
  }

  // ---------------------------------------------------------------------
  // computeData: amplitude and angles of one frame

  function Diff(a: Point, b: Point): Point {
    Point(a.x - b.x, a.y - b.y)
  }

  /** The 2D cross product u x v. */
  function Cross(u: Point, v: Point): int {
    u.x * v.y - v.x * u.y
  }

  function Dot(u: Point, v: Point): int {
    u.x * v.x + u.y * v.y
  }

  function NormSq(u: Point): nat {
    u.x * u.x + u.y * u.y
  }

  /** sinAlpha[i] of treatData.py:75-76: the cross product of (tail - head)
      and (headPe - head) over the product of their norms. It is NaN (0/0)
      when head coincides with tail or headPe; otherwise it is a number in
      [-1, 1] whose product with both norms is the integer cross product. */
  function SinAlpha(tail: Point, head: Point, headPe: Point, m: MathLib): (s: Float)
    ensures IsSqrt(m.sqrt) ==>
      var u, v := Diff(tail, head), Diff(headPe, head);
      && (head == tail || head == headPe ==> s == NaN)
      && (head != tail && head != headPe ==>
            && s.Num?
            && -1.0 <= s.v <= 1.0
            && s.v * (m.sqrt(NormSq(u) as real) * m.sqrt(NormSq(v) as real)) == Cross(u, v) as real)
  {
    var u, v := Diff(tail, head), Diff(headPe, head);
    NormedCross(u, v, m);
    DiffZero(tail, head);
    DiffZero(headPe, head);
    Div(Num(Cross(u, v) as real), Mul(Sqrt(m, NormSq(u)), Sqrt(m, NormSq(v))))
  }

  /** The quotient of sinAlpha for the vectors u and v. */
  lemma NormedCross(u: Point, v: Point, m: MathLib)
    ensures IsSqrt(m.sqrt) ==>
      var su, sv := m.sqrt(NormSq(u) as real), m.sqrt(NormSq(v) as real);
      var c := Cross(u, v) as real;
      var s := Div(Num(c), Mul(Sqrt(m, NormSq(u)), Sqrt(m, NormSq(v))));
      && (u == Point(0, 0) || v == Point(0, 0) ==> s == NaN)
      && (u != Point(0, 0) && v != Point(0, 0) ==> s.Num? && -1.0 <= s.v <= 1.0 && s.v * (su * sv) == c)
  {
    if IsSqrt(m.sqrt) {
      var su, sv := m.sqrt(NormSq(u) as real), m.sqrt(NormSq(v) as real);
      var c := Cross(u, v) as real;
      RootOfNorm(m, u);
      RootOfNorm(m, v);
      if u != Point(0, 0) && v != Point(0, 0) {
        CrossBounded(u, v);
        RatioOfNorms(c, NormSq(u) as real, NormSq(v) as real, su, sv);
      } else {
        CrossOfZero(u, v);
        ZeroOverZero(su, sv);
      }
    }
  }

  /** What the amplitude of a landmark triple is: NaN where head coincides
      with tail or headPe; otherwise a number with the sign of the cross
      product c of (tail - head) and (headPe - head), with a^2 times
      |headPe - head|^2 equal to c^2 and a times |headPe - head| equal to c. */
  ghost predicate IsAmplitude(tail: Point, head: Point, headPe: Point, m: MathLib, a: Float) {
    var u, v := Diff(tail, head), Diff(headPe, head);
    var c := Cross(u, v);
    && (head == tail || head == headPe ==> a == NaN)
    && (head != tail && head != headPe ==>
          && a.Num?
          && (a.v > 0.0 <==> c > 0)
          && (a.v < 0.0 <==> c < 0)
          && a.v * a.v * (NormSq(v) as real) == (c * c) as real
          && a.v * m.sqrt(NormSq(v) as real) == c as real)
  }

  /** ampl[i] = h[i] * sinAlpha[i] of treatData.py:73-77, h the norm of
      tail - head. */
  function Amplitude(tail: Point, head: Point, headPe: Point, m: MathLib): (a: Float)
    ensures IsSqrt(m.sqrt) ==> IsAmplitude(tail, head, headPe, m, a)
  {
    var s := SinAlpha(tail, head, headPe, m);
    ScaledSin(tail, head, headPe, s, m);
    Mul(Sqrt(m, NormSq(Diff(tail, head))), s)
  }

  /** The product h * s for an s with the properties of sinAlpha. */
  lemma ScaledSin(tail: Point, head: Point, headPe: Point, s: Float, m: MathLib)
    requires IsSqrt(m.sqrt) ==>
      var u, v := Diff(tail, head), Diff(headPe, head);
      && (head == tail || head == headPe ==> s == NaN)
      && (head != tail && head != headPe ==>
            && s.Num?
            && s.v * (m.sqrt(NormSq(u) as real) * m.sqrt(NormSq(v) as real)) == Cross(u, v) as real)
    ensures IsSqrt(m.sqrt) ==> IsAmplitude(tail, head, headPe, m, Mul(Sqrt(m, NormSq(Diff(tail, head))), s))
  {
    if IsSqrt(m.sqrt) && head != tail && head != headPe {
      ScaledSinOfArms(tail, head, headPe, s, m);
    }
  }

  /** ScaledSin where head differs from tail and from headPe. */
  lemma ScaledSinOfArms(tail: Point, head: Point, headPe: Point, s: Float, m: MathLib)
    requires IsSqrt(m.sqrt) && head != tail && head != headPe
    requires var u, v := Diff(tail, head), Diff(headPe, head);
      s.Num? && s.v * (m.sqrt(NormSq(u) as real) * m.sqrt(NormSq(v) as real)) == Cross(u, v) as real
    ensures IsAmplitude(tail, head, headPe, m, Mul(Sqrt(m, NormSq(Diff(tail, head))), s))
  {
    var u, v := Diff(tail, head), Diff(headPe, head);
    var su, sv := m.sqrt(NormSq(u) as real), m.sqrt(NormSq(v) as real);
    var c := Cross(u, v);
    DiffZero(tail, head);
    DiffZero(headPe, head);
    RootOfNorm(m, u);
    RootOfNorm(m, v);
    CastMul(c, c);
    ScaledRatio(s.v, su, sv, NormSq(v) as real, c as real);
  }

  /** beta[i] of treatData.py:83-84: arcsin of the amplitude over
      |tail - headPe|. It is a number exactly when the three landmarks are
      pairwise distinct, and NaN otherwise: the amplitude is the distance of
      the tail from the head axis, never more than its distance from headPe. */
  function Beta(tail: Point, head: Point, headPe: Point, m: MathLib): (b: Float)
    ensures IsSqrt(m.sqrt) ==> (b.Num? <==> tail != head && head != headPe && tail != headPe)
    ensures !b.Num? ==> b == NaN
  {
    BetaDefined(tail, head, headPe, m);
    Arcsin(m, Div(Amplitude(tail, head, headPe, m), Sqrt(m, NormSq(Diff(tail, headPe)))))
  }

  /** The arcsin of beta gets an argument in [-1, 1] exactly when the three
      landmarks are pairwise distinct: the amplitude is the distance of the
      tail from the head axis, never more than its distance from headPe. */
  lemma BetaDefined(tail: Point, head: Point, headPe: Point, m: MathLib)
    ensures IsSqrt(m.sqrt) ==>
      var b := Arcsin(m, Div(Amplitude(tail, head, headPe, m), Sqrt(m, NormSq(Diff(tail, headPe)))));
      b.Num? <==> tail != head && head != headPe && tail != headPe
  {
    if IsSqrt(m.sqrt) {
      var w := Diff(tail, headPe);
      var a := Amplitude(tail, head, headPe, m);
      var sw := m.sqrt(NormSq(w) as real);
      DiffZero(tail, head);
      DiffZero(headPe, head);
      DiffZero(tail, headPe);
      RootOfNorm(m, w);
      ArcsinOfRatio(m, a, sw);
      if tail != head && head != headPe && tail != headPe {
        BetaArgument(tail, head, headPe, m);
      }
    }
  }

  /** For pairwise distinct landmarks the amplitude over |tail - headPe| is a
      number in [-1, 1]. */
  lemma BetaArgument(tail: Point, head: Point, headPe: Point, m: MathLib)
    requires IsSqrt(m.sqrt) && tail != head && head != headPe && tail != headPe
    ensures var a, sw := Amplitude(tail, head, headPe, m), m.sqrt(NormSq(Diff(tail, headPe)) as real);
      a.Num? && sw > 0.0 && -1.0 <= a.v / sw <= 1.0
  {
    var u, v, w := Diff(tail, head), Diff(headPe, head), Diff(tail, headPe);
    var a := Amplitude(tail, head, headPe, m);
    var sw, sv := m.sqrt(NormSq(w) as real), m.sqrt(NormSq(v) as real);
    DiffZero(headPe, head);
    DiffZero(tail, headPe);
    RootOfNorm(m, w);
    RootOfNorm(m, v);
    CrossFromHeadPe(tail, head, headPe);
    CrossBounded(w, v);
    ArcsinArgument(a.v, sw, sv, NormSq(w) as real, NormSq(v) as real, Cross(u, v) as real);
  }

  /** Lagrange's identity in the plane: cross^2 + dot^2 = |u|^2 |v|^2. */
  lemma Lagrange(u: Point, v: Point)
    ensures Cross(u, v) * Cross(u, v) + Dot(u, v) * Dot(u, v) == NormSq(u) * NormSq(v)
  {
    var a, b, c, d := u.x, u.y, v.x, v.y;
    var ad, cb, ac, bd := a * d, c * b, a * c, b * d;
    var aa, bb, cc, dd := a * a, b * b, c * c, d * d;
    SquareOfSum(ad, -cb);
    SquareOfSum(ac, bd);
    Rearrange(a, d, c, b);
    Rearrange(a, d, a, d);
    Rearrange(c, b, c, b);
    Rearrange(a, c, a, c);
    Rearrange(b, d, b, d);
    Distribute(aa, bb, cc, dd);
  }

  lemma SquareOfSum(x: int, y: int)
    ensures (x + y) * (x + y) == x * x + 2 * (x * y) + y * y
  {
  }

  /** (a d)(c b) = (a c)(b d), and the same for any four factors. */
  lemma Rearrange(a: int, d: int, c: int, b: int)
    ensures (a * d) * (c * b) == (a * c) * (d * b)
  {
  }

  lemma Distribute(x: int, y: int, z: int, w: int)
    ensures (x + y) * (z + w) == x * z + x * w + y * z + y * w
  {
  }

  /** The cross product is at most the product of the norms (Cauchy-Schwarz). */
  lemma CrossBounded(u: Point, v: Point)
    ensures (Cross(u, v) as real) * (Cross(u, v) as real) <= (NormSq(u) as real) * (NormSq(v) as real)
  {
    var c, nu, nv := Cross(u, v), NormSq(u), NormSq(v);
    Lagrange(u, v);
    var d := Dot(u, v);
    assert c * c <= nu * nv by {
      assert d * d >= 0;
    }
    CastMul(c, c);
    CastMul(nu, nv);
  }

  lemma CastMul(a: int, b: int)
    ensures (a * b) as real == (a as real) * (b as real)
  {
  }

  lemma SqrtOf(m: MathLib, n: nat)
    requires IsSqrt(m.sqrt)
    ensures var s := m.sqrt(n as real);
      0.0 <= s && s * s == n as real && (n == 0 <==> s == 0.0)
  {
    CastZero(n);
  }

  lemma CastZero(n: int)
    ensures n == 0 <==> n as real == 0.0
  {
  }

  lemma NormSqZero(u: Point)
    ensures NormSq(u) == 0 <==> u == Point(0, 0)
  {
    if u.x != 0 {
      assert u.x * u.x > 0;
    } else if u.y != 0 {
      assert u.y * u.y > 0;
    }
  }

  lemma PositiveProduct(x: real, y: real)
    requires x > 0.0 && y > 0.0
    ensures x * y > 0.0
  {
  }

  /** q * p == c with c^2 <= p^2 and p > 0 puts q in [-1, 1]. */
  lemma UnitBound(q: real, p: real, c: real)
    requires p > 0.0 && q * p == c && c * c <= p * p
    ensures -1.0 <= q <= 1.0
  {
    if q > 1.0 {
      assert (q - 1.0) * p > 0.0;
      assert c > p;
      assert c * c - p * p == (c - p) * (c + p);
      PositiveProduct(c - p, c + p);
    } else if q < -1.0 {
      assert (-q - 1.0) * p > 0.0;
      assert -c > p;
      assert c * c - p * p == (-c - p) * (-c + p);
      PositiveProduct(-c - p, -c + p);
    }
  }

  /** The real arithmetic of sinAlpha and ampl: with positive norms su, sv,
      q = c / (su * sv) lies in [-1, 1] when c^2 <= su^2 * sv^2, and
      a = su * q satisfies a * sv == c. */
  lemma QuotientFacts(c: real, su: real, sv: real)
    requires su > 0.0 && sv > 0.0 && c * c <= (su * su) * (sv * sv)
    ensures var q := c / (su * sv);
      && -1.0 <= q <= 1.0
      && q * (su * sv) == c
      && (su * q) * sv == c
  {
    var p := su * sv;
    assert p > 0.0;
    var q := c / p;
    assert q * p == c;
    assert p * p == (su * su) * (sv * sv);
    UnitBound(q, p, c);
    assert (su * q) * sv == q * p;
  }

  /** a * sv == c with sv > 0: a has the sign of c and a^2 * sv^2 == c^2. */
  lemma ScaledSign(a: real, sv: real, c: real)
    requires sv > 0.0 && a * sv == c
    ensures a > 0.0 <==> c > 0.0
    ensures a < 0.0 <==> c < 0.0
    ensures a * a * (sv * sv) == c * c
  {
    if a > 0.0 { assert a * sv > 0.0; }
    if a < 0.0 { assert (-a) * sv > 0.0; }
    assert a * a * (sv * sv) == (a * sv) * (a * sv);
  }

  lemma DiffZero(a: Point, b: Point)
    ensures Diff(a, b) == Point(0, 0) <==> a == b
  {
  }

  /** The root of |u|^2 is a root, and is 0 exactly for the zero vector. */
  lemma RootOfNorm(m: MathLib, u: Point)
    requires IsSqrt(m.sqrt)
    ensures var s := m.sqrt(NormSq(u) as real);
      && 0.0 <= s
      && s * s == NormSq(u) as real
      && (u == Point(0, 0) <==> s == 0.0)
  {
    SqrtOf(m, NormSq(u));
    NormSqZero(u);
  }

  lemma CrossOfZero(u: Point, v: Point)
    requires u == Point(0, 0) || v == Point(0, 0)
    ensures Cross(u, v) as real == 0.0
  {
  }

  /** 0 / (su * sv) is NaN when one factor is 0. */
  lemma ZeroOverZero(su: real, sv: real)
    requires su == 0.0 || sv == 0.0
    ensures Div(Num(0.0), Mul(Num(su), Num(sv))) == NaN
  {
    assert su * sv == 0.0;
  }

  /** c over the product of the roots su, sv of nu, nv is a number in
      [-1, 1] when c^2 <= nu * nv. */
  lemma RatioOfNorms(c: real, nu: real, nv: real, su: real, sv: real)
    requires su > 0.0 && sv > 0.0 && su * su == nu && sv * sv == nv && c * c <= nu * nv
    ensures var s := Div(Num(c), Mul(Num(su), Num(sv)));
      && s.Num?
      && -1.0 <= s.v <= 1.0
      && s.v * (su * sv) == c
  {
    assert (su * su) * (sv * sv) == nu * nv;
    QuotientFacts(c, su, sv);
    PositiveProduct(su, sv);
    var p := su * sv;
    assert Mul(Num(su), Num(sv)) == Num(p);
    assert Div(Num(c), Num(p)) == Num(c / p);
  }

  /** With q * (su * sv) == c, the amplitude a = su * q satisfies a * sv == c,
      has the sign of c, and a^2 * sv^2 == c^2. */
  lemma ScaledRatio(q: real, su: real, sv: real, nv: real, c: real)
    requires su > 0.0 && sv > 0.0 && sv * sv == nv && q * (su * sv) == c
    ensures var a := su * q;
      && Mul(Num(su), Num(q)) == Num(a)
      && a * sv == c
      && (a > 0.0 <==> c > 0.0)
      && (a < 0.0 <==> c < 0.0)
      && a * a * nv == c * c
  {
    var a := su * q;
    assert a * sv == q * (su * sv);
    ScaledSign(a, sv, c);
  }

  /** The cross product is the same whether the tail is taken from head or from headPe. */
  lemma CrossFromHeadPe(tail: Point, head: Point, headPe: Point)
    ensures Cross(Diff(tail, head), Diff(headPe, head)) == Cross(Diff(tail, headPe), Diff(headPe, head))
  {
  }

  /** arcsin(a / sw) for a non-negative sw is a number exactly when a is a
      number, sw is positive and the ratio lies in [-1, 1]; it is NaN otherwise. */
  lemma ArcsinOfRatio(m: MathLib, a: Float, sw: real)
    requires sw >= 0.0
    ensures var b := Arcsin(m, Div(a, Num(sw)));
      && (b.Num? <==> a.Num? && sw > 0.0 && -1.0 <= a.v / sw <= 1.0)
      && (!b.Num? ==> b == NaN)
  {
  }

  /** With a * sv == c and c^2 <= nw * nv for the roots sw, sv of nw, nv,
      the arcsin argument a / sw lies in [-1, 1]. */
  lemma ArcsinArgument(a: real, sw: real, sv: real, nw: real, nv: real, c: real)
    requires sw > 0.0 && sv > 0.0 && sw * sw == nw && sv * sv == nv
    requires a * sv == c && c * c <= nw * nv
    ensures Div(Num(a), Num(sw)) == Num(a / sw)
    ensures -1.0 <= a / sw <= 1.0
  {
    var arg := a / sw;
    var p := sw * sv;
    assert arg * sw == a;
    assert arg * p == c by {
      assert arg * p == (arg * sw) * sv;
    }
    assert p * p == nw * nv by {
      assert p * p == (sw * sw) * (sv * sv);
    }
    UnitBound(arg, p, c);
  }

  // ---------------------------------------------------------------------
  // computeData: the series

  /** The first loop of computeData over rows 0 .. count - 1: h[i],
      sinAlpha[i] and ampl[i]; the rows it does not reach keep their zeros.
      h and sinAlpha are never read outside the row that writes them, so each
      is one value per row here. */
  method AmplitudeSeries(tailP: array<Point>, headP: array<Point>, headPe: array<Point>, count: nat, m: MathLib)
    returns (ampl: array<Float>)
    requires headP.Length == tailP.Length && headPe.Length == tailP.Length && count <= tailP.Length
    ensures fresh(ampl) && ampl.Length == tailP.Length
    ensures forall i :: 0 <= i < count ==> ampl[i] == Amplitude(tailP[i], headP[i], headPe[i], m)
    ensures forall i :: count <= i < ampl.Length ==> ampl[i] == Num(0.0)
  {
    ampl := new Float[tailP.Length](_ => Num(0.0));
    for i := 0 to count
      invariant forall k :: 0 <= k < i ==> ampl[k] == Amplitude(tailP[k], headP[k], headPe[k], m)
      invariant forall k :: i <= k < ampl.Length ==> ampl[k] == Num(0.0)
    {
      var h := Sqrt(m, NormSq(Diff(tailP[i], headP[i])));
      var sinAlpha := SinAlpha(tailP[i], headP[i], headPe[i], m);
      ampl[i] := Mul(h, sinAlpha);
    }
  }

  /** The second loop of computeData: beta from ampl over rows 0 .. count - 1. */
  method BetaSeries(tailP: array<Point>, headPe: array<Point>, ampl: array<Float>, count: nat, m: MathLib)
    returns (beta: array<Float>)
    requires headPe.Length == tailP.Length && ampl.Length == tailP.Length && count <= tailP.Length
    ensures fresh(beta) && beta.Length == tailP.Length
    ensures forall i :: 0 <= i < count ==>
              beta[i] == Arcsin(m, Div(ampl[i], Sqrt(m, NormSq(Diff(tailP[i], headPe[i])))))
    ensures forall i :: count <= i < beta.Length ==> beta[i] == Num(0.0)
  {
    beta := new Float[tailP.Length](_ => Num(0.0));
    for i := 0 to count
      invariant forall k :: 0 <= k < i ==>
                  beta[k] == Arcsin(m, Div(ampl[k], Sqrt(m, NormSq(Diff(tailP[k], headPe[k])))))
      invariant forall k :: i <= k < beta.Length ==> beta[k] == Num(0.0)
    {
      beta[i] := Arcsin(m, Div(ampl[i], Sqrt(m, NormSq(Diff(tailP[i], headPe[i])))));
    }
  }

  /** gamma[:] = np.pi - beta[:]. */
  method GammaSeries(beta: array<Float>, m: MathLib) returns (gamma: array<Float>)
    ensures fresh(gamma) && gamma.Length == beta.Length
    ensures forall i :: 0 <= i < beta.Length ==> gamma[i] == Minus(Num(m.pi), beta[i])
  {
    gamma := new Float[beta.Length](_ => Num(0.0));
    for i := 0 to beta.Length
      invariant forall k :: 0 <= k < i ==> gamma[k] == Minus(Num(m.pi), beta[k])
    {
      gamma[i] := Minus(Num(m.pi), beta[i]);
    }
  }

  /** The loops of computeData over rows 0 .. count - 1; the remaining rows
      keep the zeros the arrays were created with, and gamma = pi - beta on
      every row. */
  method AngleSeries(tailP: array<Point>, headP: array<Point>, headPe: array<Point>, nFiles: nat, count: nat, m: MathLib)
    returns (ampl: array<Float>, beta: array<Float>, gamma: array<Float>)
    requires tailP.Length == nFiles && headP.Length == nFiles && headPe.Length == nFiles
    requires count <= nFiles
    ensures fresh(ampl) && fresh(beta) && fresh(gamma)
    ensures ampl.Length == nFiles && beta.Length == nFiles && gamma.Length == nFiles
    ensures forall i :: 0 <= i < count ==>
              && ampl[i] == Amplitude(tailP[i], headP[i], headPe[i], m)
              && beta[i] == Beta(tailP[i], headP[i], headPe[i], m)
    ensures forall i :: count <= i < nFiles ==> ampl[i] == Num(0.0) && beta[i] == Num(0.0)
    ensures forall i :: 0 <= i < nFiles ==> gamma[i] == Minus(Num(m.pi), beta[i])
  {
    ampl := AmplitudeSeries(tailP, headP, headPe, count, m);
    beta := BetaSeries(tailP, headPe, ampl, count, m);
    gamma := GammaSeries(beta, m);
  }

  /** computeData of treatData.py:65-90 as written: both loops run over
      range(0, nFiles - 1), so the last frame keeps ampl = beta = 0 and gets
      gamma = pi whatever its landmarks. */
  method ComputeDataAsWritten(tailP: array<Point>, headP: array<Point>, headPe: array<Point>, nFiles: nat, m: MathLib)
    returns (ampl: array<Float>, beta: array<Float>, gamma: array<Float>)
    requires tailP.Length == nFiles && headP.Length == nFiles && headPe.Length == nFiles
    ensures fresh(ampl) && fresh(beta) && fresh(gamma)
    ensures ampl.Length == nFiles && beta.Length == nFiles && gamma.Length == nFiles
    ensures forall i :: 0 <= i < nFiles - 1 ==>
              && ampl[i] == Amplitude(tailP[i], headP[i], headPe[i], m)
              && beta[i] == Beta(tailP[i], headP[i], headPe[i], m)
              && gamma[i] == Minus(Num(m.pi), beta[i])
    ensures nFiles > 0 ==>
              ampl[nFiles - 1] == Num(0.0) && beta[nFiles - 1] == Num(0.0) && gamma[nFiles - 1] == Num(m.pi)
  {
    ampl, beta, gamma := AngleSeries(tailP, headP, headPe, nFiles, if nFiles == 0 then 0 else nFiles - 1, m);
  }

  /** The frame the loops as written skip is not a zero-amplitude frame in
      general: tail (0, 1), headPe (1, 0), head (2, 0), landmarks in the
      x order importData gives them, have amplitude 1 and beta =
      arcsin(1 / sqrt 2), where the last row as written holds 0 and 0. */
  lemma SkippedFrameIsNotZero(m: MathLib)
    requires IsSqrt(m.sqrt)
    ensures Amplitude(Point(0, 1), Point(2, 0), Point(1, 0), m) == Num(1.0)
    ensures Beta(Point(0, 1), Point(2, 0), Point(1, 0), m) == Arcsin(m, Div(Num(1.0), Sqrt(m, 2)))
    ensures Beta(Point(0, 1), Point(2, 0), Point(1, 0), m).Num?
  {
    SkippedFrameRoots(m);
    SkippedFrameAmplitude(m);
    SkippedFrameBeta(m);
    ArcsinOverRoot(m, m.sqrt(2.0));
  }

  /** arcsin(1 / r) is a number for r >= 1. */
  lemma ArcsinOverRoot(m: MathLib, r: real)
    requires r >= 1.0
    ensures Arcsin(m, Div(Num(1.0), Num(r))).Num?
  {
    assert Div(Num(1.0), Num(r)) == Num(1.0 / r);
    assert 1.0 / r <= 1.0;
  }

  lemma SkippedFrameRoots(m: MathLib)
    requires IsSqrt(m.sqrt)
    ensures m.sqrt(1.0) == 1.0 && m.sqrt(5.0) > 0.0 && m.sqrt(2.0) >= 1.0
  {
    SqrtOf(m, 1);
    UnitRoot(m.sqrt(1.0));
    SqrtOf(m, 5);
    SqrtOf(m, 2);
    var r := m.sqrt(2.0);
    assert 0.0 <= r && r * r == 2.0;
    if r < 1.0 {
      SquareBelow(r);
      assert false;
    }
  }

  /** The amplitude of the frame, from the two roots it needs. */
  lemma SkippedFrameAmplitude(m: MathLib)
    requires m.sqrt(1.0) == 1.0 && m.sqrt(5.0) > 0.0
    ensures Amplitude(Point(0, 1), Point(2, 0), Point(1, 0), m) == Num(1.0)
  {
    var tail, head, headPe := Point(0, 1), Point(2, 0), Point(1, 0);
    AmplitudeUnfold(tail, head, headPe, m);
    SinAlphaUnfold(tail, head, headPe, m);
    SkippedFrameVectors();
    UnitOverRoot(m.sqrt(5.0));
  }

  /** The two arms and their cross product, in integers. */
  lemma SkippedFrameVectors()
    ensures NormSq(Diff(Point(0, 1), Point(2, 0))) == 5
    ensures NormSq(Diff(Point(1, 0), Point(2, 0))) == 1
    ensures Cross(Diff(Point(0, 1), Point(2, 0)), Diff(Point(1, 0), Point(2, 0))) == 1
  {
    assert Diff(Point(0, 1), Point(2, 0)) == Point(-2, 1);
    assert Diff(Point(1, 0), Point(2, 0)) == Point(-1, 0);
  }

  /** r * (1 / (r * 1)) is 1 for a positive r. */
  lemma UnitOverRoot(r: real)
    requires r > 0.0
    ensures Mul(Num(r), Div(Num(1.0), Mul(Num(r), Num(1.0)))) == Num(1.0)
  {
    assert Mul(Num(r), Num(1.0)) == Num(r);
    assert Div(Num(1.0), Num(r)) == Num(1.0 / r);
    assert r * (1.0 / r) == 1.0;
  }

  lemma SinAlphaUnfold(tail: Point, head: Point, headPe: Point, m: MathLib)
    ensures var u, v := Diff(tail, head), Diff(headPe, head);
      SinAlpha(tail, head, headPe, m) == Div(Num(Cross(u, v) as real), Mul(Sqrt(m, NormSq(u)), Sqrt(m, NormSq(v))))
  {
  }

  lemma AmplitudeUnfold(tail: Point, head: Point, headPe: Point, m: MathLib)
    ensures Amplitude(tail, head, headPe, m) == Mul(Sqrt(m, NormSq(Diff(tail, head))), SinAlpha(tail, head, headPe, m))
  {
  }

  /** beta of the frame, given its amplitude. */
  lemma SkippedFrameBeta(m: MathLib)
    requires Amplitude(Point(0, 1), Point(2, 0), Point(1, 0), m) == Num(1.0)
    ensures Beta(Point(0, 1), Point(2, 0), Point(1, 0), m) == Arcsin(m, Div(Num(1.0), Sqrt(m, 2)))
  {
    BetaUnfold(Point(0, 1), Point(2, 0), Point(1, 0), m);
    SkippedFrameDistance();
  }

  lemma SkippedFrameDistance()
    ensures NormSq(Diff(Point(0, 1), Point(1, 0))) == 2
  {
    assert Diff(Point(0, 1), Point(1, 0)) == Point(-1, 1);
  }

  lemma BetaUnfold(tail: Point, head: Point, headPe: Point, m: MathLib)
    ensures Beta(tail, head, headPe, m) ==
              Arcsin(m, Div(Amplitude(tail, head, headPe, m), Sqrt(m, NormSq(Diff(tail, headPe)))))
  {
  }

  lemma UnitRoot(s: real)
    requires 0.0 <= s && s * s == 1.0
    ensures s == 1.0
  {
    if s > 1.0 {
      SquareAbove(s);
      assert false;
    } else if s < 1.0 {
      SquareBelow(s);
      assert false;
    }
  }

  lemma SquareAbove(s: real)
    requires s > 1.0
    ensures s * s > 1.0
  {
    assert s * s > s * 1.0;
  }

  lemma SquareBelow(s: real)
    requires 0.0 <= s < 1.0
    ensures s * s < 1.0
  {
    assert s * s <= s * 1.0;
  }

  /** computeData with the loops over every frame, range(0, nFiles). */
  method ComputeData(tailP: array<Point>, headP: array<Point>, headPe: array<Point>, nFiles: nat, m: MathLib)
    returns (ampl: array<Float>, beta: array<Float>, gamma: array<Float>)
    requires tailP.Length == nFiles && headP.Length == nFiles && headPe.Length == nFiles
    ensures fresh(ampl) && fresh(beta) && fresh(gamma)
    ensures ampl.Length == nFiles && beta.Length == nFiles && gamma.Length == nFiles
    ensures forall i :: 0 <= i < nFiles ==>
              && ampl[i] == Amplitude(tailP[i], headP[i], headPe[i], m)
              && beta[i] == Beta(tailP[i], headP[i], headPe[i], m)
              && gamma[i] == Minus(Num(m.pi), beta[i])
  {
    ampl, beta, gamma := AngleSeries(tailP, headP, headPe, nFiles, nFiles, m);
  }

  /** treatData of treatData.py:6-32 without the directory handling and the
      export: nFiles is the number of skeleton files found. The angles come
      from computeData as written, so the last row is never computed. */
  method RunTreatData(files: seq<SkeletonFile>, nFiles: nat, m: MathLib)
    returns (tailP: array<Point>, headP: array<Point>, headPe: array<Point>,
             ampl: array<Float>, beta: array<Float>, gamma: array<Float>, err: Option<ImportError>)
    ensures err.None? <==> forall i :: 0 <= i < nFiles ==> RowLandmarks(files, i, AxisLon).Ok?
    ensures err.Some? ==>
              && err.value.row < nFiles
              && RowLandmarks(files, err.value.row, AxisLon) == Err(err.value.failure)
              && forall i :: 0 <= i < err.value.row ==> RowLandmarks(files, i, AxisLon).Ok?
    ensures err.None? ==>
              && tailP.Length == nFiles && headP.Length == nFiles && headPe.Length == nFiles
              && ampl.Length == nFiles && beta.Length == nFiles && gamma.Length == nFiles
              && (forall i :: 0 <= i < nFiles ==>
                    RowLandmarks(files, i, AxisLon) == Ok(Landmarks(tailP[i], headP[i], headPe[i])))
              && (forall i :: 0 <= i < nFiles - 1 ==>
                    && ampl[i] == Amplitude(tailP[i], headP[i], headPe[i], m)
                    && beta[i] == Beta(tailP[i], headP[i], headPe[i], m)
                    && gamma[i] == Minus(Num(m.pi), beta[i]))
              && (nFiles > 0 ==>
                    ampl[nFiles - 1] == Num(0.0) && beta[nFiles - 1] == Num(0.0) && gamma[nFiles - 1] == Num(m.pi))
  {
    tailP, headP, headPe, err := ImportData(files, AxisLon, nFiles);
    if err.Some? {
      ampl, beta, gamma := new Float[0], new Float[0], new Float[0];
      return;
    }
    ampl, beta, gamma := ComputeDataAsWritten(tailP, headP, headPe, nFiles, m);
  }

  /** The same driver with the corrected ComputeData: every row gets its
      amplitude, beta and gamma. */
  method RunTreatDataCorrected(files: seq<SkeletonFile>, nFiles: nat, m: MathLib)
    returns (tailP: array<Point>, headP: array<Point>, headPe: array<Point>,
             ampl: array<Float>, beta: array<Float>, gamma: array<Float>, err: Option<ImportError>)
    ensures err.None? <==> forall i :: 0 <= i < nFiles ==> RowLandmarks(files, i, AxisLon).Ok?
    ensures err.Some? ==>
              && err.value.row < nFiles
              && RowLandmarks(files, err.value.row, AxisLon) == Err(err.value.failure)
              && forall i :: 0 <= i < err.value.row ==> RowLandmarks(files, i, AxisLon).Ok?
    ensures err.None? ==>
              && tailP.Length == nFiles && headP.Length == nFiles && headPe.Length == nFiles
              && ampl.Length == nFiles && beta.Length == nFiles && gamma.Length == nFiles
              && forall i :: 0 <= i < nFiles ==>
                   && RowLandmarks(files, i, AxisLon) == Ok(Landmarks(tailP[i], headP[i], headPe[i]))
                   && ampl[i] == Amplitude(tailP[i], headP[i], headPe[i], m)
                   && beta[i] == Beta(tailP[i], headP[i], headPe[i], m)
                   && gamma[i] == Minus(Num(m.pi), beta[i])
  {
    tailP, headP, headPe, err := ImportData(files, AxisLon, nFiles);
    if err.Some? {
      ampl, beta, gamma := new Float[0], new Float[0], new Float[0];
      return;
    }
    ampl, beta, gamma := ComputeData(tailP, headP, headPe, nFiles, m);
  }
}
