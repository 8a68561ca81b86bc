/** Shared vocabulary of the PALM model: error kinds, C++ integer division,
    powers of two, row-major matrices in the layout of cv::Mat, slot copies
    into flat buffers, and the foreign numeric primitives the pipeline calls
    into (OpenCV and <cmath>), which stay abstract. */
module Common {

  /** The kinds of failure a CV_Assert in the source signals. */
  datatype Error =
    | InvalidOrder          // a Zernike (n, m) pair outside the valid relation
    | InvalidConfiguration  // a size, step, order, grid or bin count out of range
    | InvalidInput          // an empty, multi-channel or ill-shaped matrix
    | NotInitialized        // a pipeline operation before initialize()

  datatype Result<T> = Ok(value: T) | Err(error: Error)

  datatype Outcome = Pass | Fail(error: Error)

  function Abs(x: int): nat { if x < 0 then -x else x }

  function AbsReal(x: real): real { if x < 0.0 then -x else x }

  function Min(a: int, b: int): int { if a < b then a else b }

  /** C++ integer division, which truncates toward zero (Dafny's `/` is Euclidean). */
  function TruncDiv(a: int, b: int): (q: int)
    requires b > 0
    ensures a >= 0 ==> 0 <= a - q * b < b
    ensures a < 0 ==> -b < a - q * b <= 0
  {
    if a >= 0 then a / b else -((-a) / b)
  }

  function Pow2(k: nat): (r: nat)
    ensures r >= 1
  {
    if k == 0 then 1 else 2 * Pow2(k - 1)
  }

  lemma {:induction false} Pow2Monotone(j: nat, k: nat)
    requires j <= k
    ensures Pow2(j) <= Pow2(k)
  {
    if j < k {
      Pow2Monotone(j, k - 1);
    }
  }

  /** Real power with a natural exponent, as std::pow does it for integral exponents. */
  function RealPow(b: real, k: nat): real
  {
    if k == 0 then 1.0 else b * RealPow(b, k - 1)
  }

  /** Euclidean division and remainder are unique: the facts every row-major
      index computation below rests on. */
  lemma DivModOf(q: int, r: int, d: int)
    requires d > 0 && q >= 0 && 0 <= r < d
    ensures (q * d + r) / d == q && (q * d + r) % d == r
  {
    var x := q * d + r;
    var q', r' := x / d, x % d;
    assert x == q' * d + r';
    if q' < q {
      MulMonotone(q' + 1, q, d);
      assert false;
    } else if q' > q {
      MulMonotone(q + 1, q', d);
      assert false;
    }
  }

  lemma MulMonotone(a: int, b: int, d: int)
    requires a <= b && d >= 0
    ensures a * d <= b * d
  {
    assert b * d - a * d == (b - a) * d;
  }

  /** A cell (i, j) of a rows x cols matrix has flat index i * cols + j, inside the buffer. */
  lemma IndexBound(i: int, j: int, rows: int, cols: int)
    requires 0 <= i < rows && 0 <= j < cols
    ensures 0 <= i * cols + j < rows * cols
  {
    MulMonotone(i + 1, rows, cols);
  }

  /** A matrix in cv::Mat's row-major layout: element (i, j) of a single-channel
      matrix sits at i * cols + j. */
  datatype Mat<T> = Mat(rows: nat, cols: nat, channels: nat, data: seq<T>)
  {
    /** cv::Mat::empty(): no elements at all. */
    predicate IsEmpty() { |data| == 0 }

    /** Every cv::Mat holds rows * cols elements of `channels` samples each. */
    predicate WellFormed() { channels >= 1 && |data| == rows * cols * channels }

    /** A single-channel matrix. */
    predicate IsPlane() { channels == 1 && |data| == rows * cols }

    predicate HasShape(r: int, c: int) { IsPlane() && rows == r && cols == c }

    /** cv::Mat::at(i, j). */
    function At(i: int, j: int): T
      requires IsPlane() && 0 <= i < rows && 0 <= j < cols
    {
      IndexBound(i, j, rows, cols);
      data[i * cols + j]
    }
  }

  /** cv::Mat::zeros(rows, cols, CV_64F). */
  function Zeros(rows: nat, cols: nat): (z: Mat<real>)
    ensures z.HasShape(rows, cols)
  {
    Mat(rows, cols, 1, seq(rows * cols, _ => 0.0))
  }

  /** A 1 x |v| single-channel matrix holding v, as a descriptor is returned. */
  function RowOf<T>(v: seq<T>): (m: Mat<T>)
    ensures m.HasShape(1, |v|) && m.data == v
  {
    Mat(1, |v|, 1, v)
  }

  /** The null matrix `cv::Mat()` a field holds before anything is assigned to it. */
  function EmptyMat<T>(): (z: Mat<T>)
    ensures z.IsEmpty()
  {
    Mat(0, 0, 1, [])
  }

  /** The plane whose cell (i, j) is f(i, j), in row-major order (see TabulateAt). */
  function Tabulate<T>(rows: nat, cols: nat, f: (int, int) -> T): (m: Mat<T>)
    ensures m.HasShape(rows, cols)
  {
    Mat(rows, cols, 1, seq(rows * cols, t requires 0 <= t < rows * cols => f(t / cols, t % cols)))
  }

  lemma TabulateAt<T>(rows: nat, cols: nat, f: (int, int) -> T, i: int, j: int)
    requires 0 <= i < rows && 0 <= j < cols
    ensures Tabulate(rows, cols, f).At(i, j) == f(i, j)
  {
    IndexBound(i, j, rows, cols);
    DivModOf(i, j, cols);
  }

  /** The matrix value of a rows x cols buffer that was filled cell by cell. */
  method Flatten<T>(a: array2<T>) returns (m: Mat<T>)
    ensures m.HasShape(a.Length0, a.Length1)
    ensures forall i, j :: 0 <= i < a.Length0 && 0 <= j < a.Length1 ==> m.At(i, j) == a[i, j]
  {
    var rows, cols := a.Length0, a.Length1;
    if cols == 0 {
      return Mat(rows, 0, 1, []);
    }
    m := Mat(rows, cols, 1, seq(rows * cols, t requires 0 <= t < rows * cols reads a =>
                                  SlotOf(t, rows, cols); a[t / cols, t % cols]));
    forall i, j | 0 <= i < rows && 0 <= j < cols
      ensures m.At(i, j) == a[i, j]
    {
      IndexBound(i, j, rows, cols);
      DivModOf(i, j, cols);
    }
  }

  /** A plane is determined by its shape and its cells. */
  lemma PlaneEquality<T>(a: Mat<T>, b: Mat<T>)
    requires a.IsPlane() && b.IsPlane() && a.rows == b.rows && a.cols == b.cols
    requires forall i, j :: 0 <= i < a.rows && 0 <= j < a.cols ==> a.At(i, j) == b.At(i, j)
    ensures a == b
  {
    forall t | 0 <= t < |a.data|
      ensures a.data[t] == b.data[t]
    {
      var i, j := t / a.cols, t % a.cols;
      assert t == i * a.cols + j;
      if i >= a.rows {
        MulMonotone(a.rows, i, a.cols);
        assert false;
      }
      assert a.At(i, j) == b.At(i, j);
    }
  }

  /** Concatenation of a sequence of sequences, in order. */
  function Concat<T>(parts: seq<seq<T>>): seq<T>
  {
    if |parts| == 0 then [] else Concat(parts[..|parts| - 1]) + parts[|parts| - 1]
  }

  /** Appending a part appends its elements. */
  lemma ConcatSnoc<T>(parts: seq<seq<T>>, last: seq<T>)
    ensures Concat(parts + [last]) == Concat(parts) + last
  {
    assert (parts + [last])[..|parts|] == parts;
  }

  /** A buffer whose prefix holds the concatenation of some parts, and whose next
      cells are then given one more part, holds the longer concatenation. */
  lemma PrefixGrows<T>(a: seq<T>, parts: seq<seq<T>>, last: seq<T>, base: nat)
    requires base + |last| <= |a|
    requires a[..base] == Concat(parts) && a[base..base + |last|] == last
    ensures a[..base + |last|] == Concat(parts + [last])
  {
    ConcatSnoc(parts, last);
    assert a[..base + |last|] == a[..base] + a[base..base + |last|];
  }

  /** When every part has `width` elements, the concatenation has |parts| * width. */
  lemma {:induction false} ConcatLength<T>(parts: seq<seq<T>>, width: nat)
    requires forall s :: 0 <= s < |parts| ==> |parts[s]| == width
    ensures |Concat(parts)| == |parts| * width
  {
    if |parts| > 0 {
      ConcatLength(parts[..|parts| - 1], width);
    }
  }

  /** When every part has `width` elements, element b of part s of the concatenation
      sits at flat index s * width + b. */
  lemma {:induction false} ConcatAt<T>(parts: seq<seq<T>>, width: nat, s: int, b: int)
    requires forall s :: 0 <= s < |parts| ==> |parts[s]| == width
    requires 0 <= s < |parts| && 0 <= b < width
    ensures s * width + b < |Concat(parts)| && Concat(parts)[s * width + b] == parts[s][b]
  {
    var init := parts[..|parts| - 1];
    ConcatLength(init, width);
    ConcatLength(parts, width);
    IndexBound(s, b, |parts|, width);
    if s < |parts| - 1 {
      ConcatAt(init, width, s, b);
    } else {
      assert s * width + b == |Concat(init)| + b;
    }
  }

  /** ... hence part s is the slice [s * width, (s + 1) * width) of the concatenation. */
  lemma ConcatSlice<T>(parts: seq<seq<T>>, width: nat, s: int)
    requires forall s :: 0 <= s < |parts| ==> |parts[s]| == width
    requires 0 <= s < |parts|
    ensures (s + 1) * width <= |Concat(parts)| && Concat(parts)[s * width .. (s + 1) * width] == parts[s]
  {
    ConcatLength(parts, width);
    MulMonotone(s + 1, |parts|, width);
    forall b | 0 <= b < width
      ensures Concat(parts)[s * width .. (s + 1) * width][b] == parts[s][b]
    {
      ConcatAt(parts, width, s, b);
    }
  }

  /** A flat buffer whose slot s (width cells from s * width) holds part s, for every
      part, is exactly the concatenation of the parts. */
  ghost predicate PartsOfWidth<T>(parts: seq<seq<T>>, width: nat)
  {
    forall s :: 0 <= s < |parts| ==> |parts[s]| == width
  }

  /** Cell b of slot s of `a` holds entry b of part s. */
  ghost predicate CellMatches<T>(a: seq<T>, parts: seq<seq<T>>, width: nat, s: int, b: int)
  {
    0 <= s < |parts| && 0 <= b && s * width + b < |a| && b < |parts[s]| && a[s * width + b] == parts[s][b]
  }

  ghost predicate CellsMatch<T>(a: seq<T>, parts: seq<seq<T>>, width: nat)
  {
    forall s, b :: 0 <= s < |parts| && 0 <= b < width ==> CellMatches(a, parts, width, s, b)
  }

  /** Slot s of `a` (width cells from s * width) holds part s, for every part. */
  ghost predicate SlotsHold<T>(a: seq<T>, parts: seq<seq<T>>, width: nat)
  {
    PartsOfWidth(parts, width) && |a| == |parts| * width && CellsMatch(a, parts, width)
  }

  lemma SlotsMakeConcat<T>(a: seq<T>, parts: seq<seq<T>>, width: nat)
    requires width > 0 && SlotsHold(a, parts, width)
    ensures a == Concat(parts)
  {
    ConcatLength(parts, width);
    forall k | 0 <= k < |a|
      ensures a[k] == Concat(parts)[k]
    {
      SlotOf(k, |parts|, width);
      var s, b := k / width, k % width;
      ConcatAt(parts, width, s, b);
      assert CellMatches(a, parts, width, s, b);
    }
  }

  /** Flat index k of a buffer of n slots of width cells lies in slot k / width, at
      offset k % width. */
  lemma SlotOf(k: int, n: int, width: int)
    requires width > 0 && 0 <= k < n * width
    ensures 0 <= k / width < n && 0 <= k % width < width && k == k / width * width + k % width
  {
    if k / width >= n {
      MulMonotone(n, k / width, width);
      assert false;
    }
  }

  /** The ranges of two distinct slots of equal width do not overlap. */
  lemma SlotsApart(s: int, s': int, width: int)
    requires 0 <= s && 0 <= s' && s != s' && width >= 0
    ensures s' * width + width <= s * width || s * width + width <= s' * width
  {
    if s' < s {
      MulMonotone(s' + 1, s, width);
    } else {
      MulMonotone(s + 1, s', width);
    }
  }

  /** Copies `src` into slot `s` of `out` (cv::Mat::copyTo on a column range). */
  method WriteSlot<T>(out: array<T>, s: nat, width: nat, src: seq<T>)
    requires |src| == width && (s + 1) * width <= out.Length
    modifies out
    ensures SlotReplaced(old(out[..]), out[..], s, width, src)
  {
    forall b | 0 <= b < width {
      out[s * width + b] := src[b];
    }
  }

  /** a' is a with slot s (width cells from s * width) replaced by src. */
  ghost predicate SlotReplaced<T>(a: seq<T>, a': seq<T>, s: nat, width: nat, src: seq<T>)
  {
    |a'| == |a| && |src| == width && s * width + width <= |a|
    && (forall b :: 0 <= b < width ==> a'[s * width + b] == src[b])
    && (forall k :: 0 <= k < |a| && !(s * width <= k < s * width + width) ==> a'[k] == a[k])
  }

  /** After the copy, slot s holds src. */
  lemma SlotWritten<T>(a: seq<T>, a': seq<T>, s: nat, width: nat, src: seq<T>)
    requires SlotReplaced(a, a', s, width, src)
    ensures a'[s * width .. s * width + width] == src
  {
  }

  /** A copy into slot s leaves every other slot of the same width as it was. */
  lemma SlotKept<T>(a: seq<T>, a': seq<T>, s: nat, s': nat, width: nat, src: seq<T>)
    requires SlotReplaced(a, a', s, width, src) && s != s' && s' * width + width <= |a|
    ensures a'[s' * width .. s' * width + width] == a[s' * width .. s' * width + width]
  {
    SlotsApart(s, s', width);
  }

  /** ... and everything before slot s. */
  lemma PrefixKept<T>(a: seq<T>, a': seq<T>, s: nat, width: nat, src: seq<T>)
    requires SlotReplaced(a, a', s, width, src)
    ensures a'[..s * width] == a[..s * width]
  {
  }

  /** Complex numbers, as std::complex<double> over the reals. */
  datatype Complex = Complex(re: real, im: real)

  function Add(a: Complex, b: Complex): Complex { Complex(a.re + b.re, a.im + b.im) }

  function Scale(k: real, a: Complex): Complex { Complex(k * a.re, k * a.im) }

  function Conj(a: Complex): Complex { Complex(a.re, -a.im) }

  /** The floating-point and OpenCV primitives the core calls into, each given by
      the cells it produces; the wrappers below fix the shapes OpenCV promises.
      radius(size, x, y) is sqrt(xn^2 + yn^2) and polar(m, size, x, y) is
      std::polar(1, m * theta) for pixel (x, y) of a size x size Zernike grid. */
  datatype Library = Library(
    radius: (int, int, int) -> real,
    polar: (int, int, int, int) -> Complex,
    resizeCell: (Mat<real>, nat, nat, int, int) -> real,
    normalizeCell: (Mat<real>, int, int) -> real,
    shrinkRows: (Mat<real>, nat) -> nat,
    shrinkCols: (Mat<real>, nat) -> nat,
    shrinkCell: (Mat<real>, nat, int, int) -> real,
    kernelCell: (nat, nat, int, int) -> real,
    l2Norm: seq<real> -> real)

  /** cv::norm(h, NORM_L2), which is never negative. */
  function L2Norm(lib: Library, h: seq<real>): (r: real)
    ensures r >= 0.0
  {
    var v := lib.l2Norm(h);
    if v < 0.0 then 0.0 else v
  }

  /** cv::resize(g, h, Size(cols, rows), 0, 0, INTER_AREA). */
  function ResizeArea(lib: Library, g: Mat<real>, rows: nat, cols: nat): (h: Mat<real>)
    ensures h.HasShape(rows, cols)
  {
    Tabulate(rows, cols, (i, j) => lib.resizeCell(g, rows, cols, i, j))
  }

  /** cv::normalize(g, h, -1, 1, NORM_MINMAX, CV_64F): same shape. */
  function NormalizeMinMax(lib: Library, g: Mat<real>): (h: Mat<real>)
    ensures h.HasShape(g.rows, g.cols)
  {
    Tabulate(g.rows, g.cols, (i, j) => lib.normalizeCell(g, i, j))
  }

  /** cv::resize(g, h, Size(), 1.0 / k, 1.0 / k, INTER_AREA): some single-channel matrix. */
  function Shrink(lib: Library, g: Mat<real>, k: nat): (h: Mat<real>)
    ensures h.IsPlane()
  {
    var rows, cols := lib.shrinkRows(g, k), lib.shrinkCols(g, k);
    Tabulate(rows, cols, (i, j) => lib.shrinkCell(g, k, i, j))
  }

  /** The rows x cols Gaussian weights of HistogramBuilder::getGaussianKernel with
      sigma 8, after its resize to the region shape. */
  function GaussianKernel(lib: Library, rows: nat, cols: nat): (h: Mat<real>)
    ensures h.HasShape(rows, cols)
  {
    Tabulate(rows, cols, (i, j) => lib.kernelCell(rows, cols, i, j))
  }
}
