/** PatternImageExtractor.cpp: the configuration checks, the Zernike filter bank,
    the per-window binary codes of the regular and the approximated extractors,
    and the sliding-window grid of pattern codes. Images and filters are real
    matrices; the down-sampling resize and the min-max normalisation come from
    the `Library` parameter. */
module PatternImages {
  import opened Common
  import opened Zernike

  /** palm::FilterType. */
  datatype FilterType = Regular | Approximated

  /** ApproximatedPatternImageExtractor::FILTER_CORE_SIZE. */
  const FilterCoreSize: nat := 4

  /* ---------------------------------------------------------------------------
     Bit packing: `value |= (uchar) (flag) << k` over k = 0, 1, ...
     --------------------------------------------------------------------------- */

  function Bit(b: bool): nat { if b then 1 else 0 }

  /** The number whose binary digit k is bits[k], least significant first. */
  function PackBits(bits: seq<bool>): (code: nat)
    ensures code < Pow2(|bits|)
  {
    if |bits| == 0 then 0 else Bit(bits[0]) + 2 * PackBits(bits[1..])
  }

  /** Binary digit k of a code. */
  predicate BitSet(code: nat, k: nat)
  {
    (code / Pow2(k)) % 2 == 1
  }

  /** Setting the next higher bit adds its power of two. */
  lemma {:induction false} PackBitsSnoc(bits: seq<bool>, b: bool)
    ensures PackBits(bits + [b]) == PackBits(bits) + (if b then Pow2(|bits|) else 0)
  {
    if |bits| > 0 {
      assert (bits + [b])[1..] == bits[1..] + [b];
      PackBitsSnoc(bits[1..], b);
    }
  }

  lemma HalveOnce(b: nat, p: nat, d: nat)
    requires b < 2 && d >= 1
    ensures (b + 2 * p) / (2 * d) == p / d
  {
    var q, r := p / d, p % d;
    assert p == q * d + r;
    assert b + 2 * p == q * (2 * d) + (2 * r + b);
    DivModOf(q, 2 * r + b, 2 * d);
  }

  /** Digit k of the packed code is exactly bits[k]. */
  lemma {:induction false} PackBitsDigit(bits: seq<bool>, k: nat)
    requires k < |bits|
    ensures BitSet(PackBits(bits), k) <==> bits[k]
  {
    if k > 0 {
      HalveOnce(Bit(bits[0]), PackBits(bits[1..]), Pow2(k - 1));
      PackBitsDigit(bits[1..], k - 1);
    }
  }

  /** No digit at or above |bits| is set. */
  lemma PackBitsHigh(bits: seq<bool>, k: nat)
    requires k >= |bits|
    ensures !BitSet(PackBits(bits), k)
  {
    Pow2Monotone(|bits|, k);
    SmallQuotient(PackBits(bits), Pow2(k));
  }

  lemma SmallQuotient(c: nat, d: nat)
    requires c < d
    ensures c / d == 0
  {
    DivModOf(0, c, d);
  }

  /** A code whose flags from position n on are all false stays below 2^n. */
  lemma {:induction false} PackBitsBelow(bits: seq<bool>, n: nat)
    requires n <= |bits|
    requires forall k :: n <= k < |bits| ==> !bits[k]
    ensures PackBits(bits) < Pow2(n)
  {
    if |bits| > 0 {
      if n == 0 {
        PackBitsBelow(bits[1..], 0);
      } else {
        PackBitsBelow(bits[1..], n - 1);
      }
    }
  }

  /** The uchar the flags are OR-ed into: flags from position 8 on are shifted out. */
  function Byte(bits: seq<bool>): (code: nat)
    ensures code < 256
    ensures |bits| <= 8 ==> code == PackBits(bits)
  {
    Pow2Monotone(Min(|bits|, 8), 8);
    assert |bits| <= 8 ==> bits[..Min(|bits|, 8)] == bits;
    PackBits(bits[..Min(|bits|, 8)])
  }

  /* ---------------------------------------------------------------------------
     Windows of the input image
     --------------------------------------------------------------------------- */

  /** The patch x patch window with top-left cell (top, left) lies inside the image. */
  predicate WindowInside(input: Mat<real>, top: int, left: int, patch: int)
  {
    input.IsPlane() && 0 <= top && 0 <= left && top + patch <= input.rows && left + patch <= input.cols
  }

  /** filter.at(ii, jj) is defined for every cell of a patch x patch window. */
  predicate Covers(filter: Mat<real>, patch: int)
  {
    filter.IsPlane() && patch <= filter.rows && patch <= filter.cols
  }

  /** Sum over jj < k of src(ii, jj) * filter(ii, jj). */
  function RowDot(input: Mat<real>, top: int, left: int, filter: Mat<real>, patch: nat, ii: int, k: nat): real
    requires WindowInside(input, top, left, patch) && Covers(filter, patch) && 0 <= ii < patch && k <= patch
  {
    if k == 0 then 0.0
    else RowDot(input, top, left, filter, patch, ii, k - 1) + input.At(top + ii, left + k - 1) * filter.At(ii, k - 1)
  }

  /** Sum over the rows ii < k of the window of the elementwise products. */
  function WindowDot(input: Mat<real>, top: int, left: int, filter: Mat<real>, patch: nat, k: nat): real
    requires WindowInside(input, top, left, patch) && Covers(filter, patch) && k <= patch
  {
    if k == 0 then 0.0
    else WindowDot(input, top, left, filter, patch, k - 1) + RowDot(input, top, left, filter, patch, k - 1, patch)
  }

  /** The sign flags of the regular extractor: flag k is set iff the window's
      elementwise product with filter k sums to a positive number. */
  function Signs(input: Mat<real>, top: int, left: int, filters: seq<Mat<real>>, patch: nat): (bits: seq<bool>)
    requires WindowInside(input, top, left, patch)
    requires forall k :: 0 <= k < |filters| ==> Covers(filters[k], patch)
    ensures |bits| == |filters|
    ensures forall k :: 0 <= k < |filters| ==> (bits[k] <==> WindowDot(input, top, left, filters[k], patch, patch) > 0.0)
  {
    seq(|filters|, k requires 0 <= k < |filters| => WindowDot(input, top, left, filters[k], patch, patch) > 0.0)
  }

  /** The innermost loop of the regular applyFilters: row ii of one filter,
      added to the running sum. */
  method RowProduct(input: Mat<real>, top: int, left: int, filter: Mat<real>, patch: nat, ii: nat, acc: real)
    returns (sum: real)
    requires WindowInside(input, top, left, patch) && Covers(filter, patch) && ii < patch
    ensures sum == acc + RowDot(input, top, left, filter, patch, ii, patch)
  {
    sum := acc;
    for jj := 0 to patch
      invariant sum == acc + RowDot(input, top, left, filter, patch, ii, jj)
    {
      sum := sum + input.At(top + ii, left + jj) * filter.At(ii, jj);
    }
  }

  /** The inner two loops of the regular applyFilters for one filter. */
  method WindowProduct(input: Mat<real>, top: int, left: int, filter: Mat<real>, patch: nat) returns (sum: real)
    requires WindowInside(input, top, left, patch) && Covers(filter, patch)
    ensures sum == WindowDot(input, top, left, filter, patch, patch)
  {
    sum := 0.0;
    for ii := 0 to patch
      invariant sum == WindowDot(input, top, left, filter, patch, ii)
    {
      sum := RowProduct(input, top, left, filter, patch, ii, sum);
    }
  }

  /** PatternImageExtractor::applyFilters: one flag per filter, OR-ed into a uchar
      at position k. While value < 2^k the OR adds 2^k; from k = 8 on the shifted
      flag lies outside the uchar and the assignment keeps value. */
  method RegularApplyFilters(patch: nat, input: Mat<real>, top: int, left: int, filters: seq<Mat<real>>)
    returns (value: nat)
    requires WindowInside(input, top, left, patch)
    requires forall k :: 0 <= k < |filters| ==> Covers(filters[k], patch)
    ensures value == Byte(Signs(input, top, left, filters, patch))
  {
    ghost var bits := Signs(input, top, left, filters, patch);
    value := 0;
    for k := 0 to |filters|
      invariant value == PackBits(bits[..Min(k, 8)])
    {
      var sum := WindowProduct(input, top, left, filters[k], patch);
      if k < 8 {
        assert bits[..k + 1] == bits[..k] + [bits[k]];
        PackBitsSnoc(bits[..k], sum > 0.0);
        if sum > 0.0 {
          value := value + Pow2(k);
        }
      }
    }
    assert bits[..Min(|filters|, 8)] == bits[..Min(|bits|, 8)];
  }

  /** The regular code: bit k is set iff the product with filter k is positive,
      and no bit at or above the filter count is set, for banks of at most 8
      filters (the 2, 4 or 8 of a valid configuration). */
  lemma RegularCodeBits(input: Mat<real>, top: int, left: int, filters: seq<Mat<real>>, patch: nat, k: nat)
    requires WindowInside(input, top, left, patch)
    requires forall k :: 0 <= k < |filters| ==> Covers(filters[k], patch)
    requires |filters| <= 8
    ensures Byte(Signs(input, top, left, filters, patch)) < Pow2(|filters|)
    ensures k < |filters| ==> (BitSet(Byte(Signs(input, top, left, filters, patch)), k) <==>
                               WindowDot(input, top, left, filters[k], patch, patch) > 0.0)
    ensures k >= |filters| ==> !BitSet(Byte(Signs(input, top, left, filters, patch)), k)
  {
    var bits := Signs(input, top, left, filters, patch);
    if k < |filters| {
      PackBitsDigit(bits, k);
    } else {
      PackBitsHigh(bits, k);
    }
  }

  /* ---------------------------------------------------------------------------
     The approximated extractor's hand-typed 4 x 4 projections
     --------------------------------------------------------------------------- */

  const C333: real := 0.333333
  const C111: real := 0.111111
  const C569: real := 0.568627
  const C294: real := 0.294118
  const C481: real := 0.481481
  const C037: real := 0.037037

  /** A 4 x 4 block of samples v[i][j]. */
  predicate IsCore(v: seq<seq<real>>)
  {
    |v| == FilterCoreSize && forall i :: 0 <= i < FilterCoreSize ==> |v[i]| == FilterCoreSize
  }

  /** The samples the approximated applyFilters copies out of a window. */
  function Core(input: Mat<real>, top: int, left: int): (v: seq<seq<real>>)
    requires WindowInside(input, top, left, FilterCoreSize)
    ensures IsCore(v)
    ensures forall i, j :: 0 <= i < FilterCoreSize && 0 <= j < FilterCoreSize ==> v[i][j] == input.At(top + i, left + j)
  {
    seq(FilterCoreSize, i requires 0 <= i < FilterCoreSize =>
      seq(FilterCoreSize, j requires 0 <= j < FilterCoreSize => input.At(top + i, left + j)))
  }

  function V1(v: seq<seq<real>>): real
    requires IsCore(v)
  {
    - v[0][0] - v[0][1] * C333 + v[0][2] * C333 + v[0][3]
    - v[1][0] - v[1][1] * C333 + v[1][2] * C333 + v[1][3]
    - v[2][0] - v[2][1] * C333 + v[2][2] * C333 + v[2][3]
    - v[3][0] - v[3][1] * C333 + v[3][2] * C333 + v[3][3]
  }

  function V2(v: seq<seq<real>>): real
    requires IsCore(v)
  {
    v[0][0] + v[0][1] + v[0][2] + v[0][3]
    + v[1][0] * C333 + v[1][1] * C333 + v[1][2] * C333 + v[1][3] * C333
    - v[2][0] * C333 - v[2][1] * C333 - v[2][2] * C333 - v[2][3] * C333
    - v[3][0] - v[3][1] - v[3][2] - v[3][3]
  }

  function V3(v: seq<seq<real>>): real
    requires IsCore(v)
  {
    - v[0][1] - v[0][2] - v[3][1] - v[3][2] + v[1][0] + v[2][0] + v[1][3] + v[2][3]
  }

  function V4(v: seq<seq<real>>): real
    requires IsCore(v)
  {
    - v[0][0] - v[0][1] * C333 + v[0][2] * C333 + v[0][3]
    - v[1][0] * C333 - v[1][1] * C111 + v[1][2] * C111 + v[1][3] * C333
    + v[2][0] * C333 + v[2][1] * C111 - v[2][2] * C111 - v[2][3] * C333
    + v[3][0] + v[3][1] * C333 - v[3][2] * C333 - v[3][3]
  }

  function V5(v: seq<seq<real>>): real
    requires IsCore(v)
  {
    v[0][0] * C294 + v[0][1] * C333 - v[0][2] * C333 - v[0][3] * C294
    + v[1][0] + v[1][1] * C569 - v[1][2] * C569 - v[1][3]
    + v[2][0] + v[2][1] * C569 - v[2][2] * C569 - v[2][3]
    + v[3][0] * C294 + v[3][1] * C333 - v[3][2] * C333 - v[3][3] * C294
  }

  function V6(v: seq<seq<real>>): real
    requires IsCore(v)
  {
    - v[0][0] * C294 - v[0][1] - v[0][2] - v[0][3] * C294
    - v[1][0] * C333 - v[1][1] * C569 - v[1][2] * C569 - v[1][3] * C333
    + v[2][0] * C333 + v[2][1] * C569 + v[2][2] * C569 + v[2][3] * C333
    + v[3][0] * C294 + v[3][1] + v[3][2] + v[3][3] * C294
  }

  function V7(v: seq<seq<real>>): real
    requires IsCore(v)
  {
    v[0][0] + v[0][1] * C481 - v[0][2] * C481 - v[0][3]
    - v[1][0] * C333 + v[1][1] * C037 - v[1][2] * C037 + v[1][3] * C333
    - v[2][0] * C333 + v[2][1] * C037 - v[2][2] * C037 + v[2][3] * C333
    + v[3][0] + v[3][1] * C481 - v[3][2] * C481 - v[3][3]
  }

  function V8(v: seq<seq<real>>): real
    requires IsCore(v)
  {
    v[0][0] - v[0][1] * C333 - v[0][2] * C333 + v[0][3]
    + v[1][0] * C481 + v[1][1] * C037 + v[1][2] * C037 + v[1][3] * C481
    - v[2][0] * C481 - v[2][1] * C037 - v[2][2] * C037 - v[2][3] * C481
    - v[3][0] + v[3][1] * C333 + v[3][2] * C333 - v[3][3]
  }

  /** The eight flags of the approximated extractor: projections 1-2 count from
      moment order 1 on, 3-4 from order 2 on, 5-8 from order 3 on. */
  function CoreFlags(order: int, v: seq<seq<real>>): (bits: seq<bool>)
    requires IsCore(v)
    ensures |bits| == 8
  {
    [order > 0 && V1(v) > 0.0, order > 0 && V2(v) > 0.0,
     order > 1 && V3(v) > 0.0, order > 1 && V4(v) > 0.0,
     order > 2 && V5(v) > 0.0, order > 2 && V6(v) > 0.0,
     order > 2 && V7(v) > 0.0, order > 2 && V8(v) > 0.0]
  }

  /** The two lowest digits of a code. */
  lemma PackTwo(bits: seq<bool>)
    requires |bits| >= 2
    ensures PackBits(bits) == Bit(bits[0]) + 2 * Bit(bits[1]) + 4 * PackBits(bits[2..])
  {
    assert bits[1..][1..] == bits[2..];
  }

  /** An eight-flag code written out digit by digit. */
  lemma PackEight(bits: seq<bool>)
    requires |bits| == 8
    ensures PackBits(bits) == Bit(bits[0]) + 2 * Bit(bits[1]) + 4 * Bit(bits[2]) + 8 * Bit(bits[3])
                              + 16 * Bit(bits[4]) + 32 * Bit(bits[5]) + 64 * Bit(bits[6]) + 128 * Bit(bits[7])
  {
    PackTwo(bits);
    PackTwo(bits[2..]);
    assert bits[2..][2..] == bits[4..];
    PackTwo(bits[4..]);
    assert bits[4..][2..] == bits[6..];
    PackTwo(bits[6..]);
    assert bits[6..][2..] == [];
  }

  /** For the moment orders 1-3 the bound is 2^(2^order). */
  lemma CoreCodeBoundPowers(order: int)
    requires 0 < order <= 3
    ensures CoreCodeBound(order) == Pow2(Pow2(order))
  {
    assert Pow2(1) == 2 && Pow2(2) == 4 && Pow2(3) == 8;
    assert Pow2(4) == 16 && Pow2(8) == 256;
  }

  /** ApproximatedPatternImageExtractor::applyFilters on the 4 x 4 core of a window. */
  method ApproximatedApplyFilters(order: int, input: Mat<real>, top: int, left: int) returns (value: nat)
    requires WindowInside(input, top, left, FilterCoreSize)
    ensures value == PackBits(CoreFlags(order, Core(input, top, left)))
  {
    var v := Core(input, top, left);
    PackEight(CoreFlags(order, v));
    value := 0;
    if order > 0 {
      value := value + Bit(V1(v) > 0.0);
      value := value + 2 * Bit(V2(v) > 0.0);
    }
    if order > 1 {
      value := value + 4 * Bit(V3(v) > 0.0);
      value := value + 8 * Bit(V4(v) > 0.0);
    }
    if order > 2 {
      value := value + 16 * Bit(V5(v) > 0.0);
      value := value + 32 * Bit(V6(v) > 0.0);
      value := value + 64 * Bit(V7(v) > 0.0);
      value := value + 128 * Bit(V8(v) > 0.0);
    }
  }

  /** Bit k of the approximated code is set iff projection k + 1 is positive and
      the moment order enables it; hence the code stays below 4, 16 and 256 for
      orders 1, 2 and 3 (and is 0 below order 1). */
  lemma CoreCodeBits(order: int, v: seq<seq<real>>, k: nat)
    requires IsCore(v)
    ensures k < 8 ==> (BitSet(PackBits(CoreFlags(order, v)), k) <==> CoreFlags(order, v)[k])
    ensures k >= 8 ==> !BitSet(PackBits(CoreFlags(order, v)), k)
    ensures BitSet(PackBits(CoreFlags(order, v)), k) ==>
              (k < 2 && order > 0) || (2 <= k < 4 && order > 1) || (4 <= k < 8 && order > 2)
    ensures PackBits(CoreFlags(order, v)) < CoreCodeBound(order)
  {
    var bits := CoreFlags(order, v);
    if k < 8 {
      PackBitsDigit(bits, k);
    } else {
      PackBitsHigh(bits, k);
    }
    if order <= 0 {
      PackBitsBelow(bits, 0);
    } else if order == 1 {
      PackBitsBelow(bits, 2);
    } else if order == 2 {
      PackBitsBelow(bits, 4);
    }
  }

  /** 2^(2^order) for the orders 1-3: 4, 16, 256; and 1 below order 1. */
  function CoreCodeBound(order: int): (b: nat)
  {
    if order <= 0 then 1 else if order == 1 then 4 else if order == 2 then 16 else 256
  }

  /** The coefficients of every projection sum to zero, so a constant window, one
      with the same sample everywhere, yields code 0. */
  lemma ConstantCoreCode(order: int, v: seq<seq<real>>, c: real)
    requires IsCore(v)
    requires forall i, j :: 0 <= i < FilterCoreSize && 0 <= j < FilterCoreSize ==> v[i][j] == c
    ensures V1(v) == 0.0 && V2(v) == 0.0 && V3(v) == 0.0 && V4(v) == 0.0
    ensures V5(v) == 0.0 && V6(v) == 0.0 && V7(v) == 0.0 && V8(v) == 0.0
    ensures PackBits(CoreFlags(order, v)) == 0
  {
    assert v[0] == [c, c, c, c] && v[1] == [c, c, c, c] && v[2] == [c, c, c, c] && v[3] == [c, c, c, c];
    PackBitsBelow(CoreFlags(order, v), 0);
  }

  /* ---------------------------------------------------------------------------
     The sliding-window grid of compute
     --------------------------------------------------------------------------- */

  /** (length - patch) / step + 1 with C++'s truncating division. */
  function GridLength(length: int, patch: int, step: int): int
    requires step > 0
  {
    TruncDiv(length - patch, step) + 1
  }

  /** When the image is at least one window long, the grid has at least one
      window, and window i, starting at i * step, ends inside the image. */
  lemma WindowsInside(length: int, patch: int, step: int, i: int)
    requires step > 0 && patch <= length
    ensures GridLength(length, patch, step) >= 1
    ensures 0 <= i < GridLength(length, patch, step) ==> 0 <= i * step && i * step + patch <= length
  {
    if 0 <= i < GridLength(length, patch, step) {
      var q := (length - patch) / step;
      MulMonotone(i, q, step);
      assert q * step <= length - patch;
    }
  }

  /* ---------------------------------------------------------------------------
     The filter bank of createFilters
     --------------------------------------------------------------------------- */

  /** The filters one base contributes: its normalised real and imaginary parts
      when m != 0, nothing for m == 0. */
  function PairOf(b: ZernikeBase, lib: Library): (pair: seq<Mat<real>>)
  {
    if b.m != 0 then [NormalizeMinMax(lib, b.reel), NormalizeMinMax(lib, b.imag)] else []
  }

  /** What the inner loop of createFilters appends for the bases of one n. */
  function BaseFilters(bases: seq<ZernikeBase>, lib: Library): seq<Mat<real>>
  {
    if |bases| == 0 then []
    else BaseFilters(bases[..|bases| - 1], lib) + PairOf(bases[|bases| - 1], lib)
  }

  /** The bases with m != 0, in their order. */
  function NonZeroBases(bases: seq<ZernikeBase>): seq<ZernikeBase>
  {
    if |bases| == 0 then []
    else NonZeroBases(bases[..|bases| - 1]) + (if bases[|bases| - 1].m != 0 then [bases[|bases| - 1]] else [])
  }

  /** The filters the outer loop of createFilters collects from the bases of
      successive orders. */
  function FiltersOf(orders: seq<seq<ZernikeBase>>, lib: Library): seq<Mat<real>>
  {
    if |orders| == 0 then []
    else FiltersOf(orders[..|orders| - 1], lib) + BaseFilters(orders[|orders| - 1], lib)
  }

  /** What generate(n) returns for n = 0 .. k - 1. */
  function OrderBases(approximated: bool, size: int, coreSize: int, k: nat, lib: Library): (orders: seq<seq<ZernikeBase>>)
    requires size > 0 && (approximated ==> coreSize > 0)
    ensures |orders| == k
  {
    if k == 0 then []
    else OrderBases(approximated, size, coreSize, k - 1, lib) + [BasesBelow(approximated, size, coreSize, k - 1, k, lib)]
  }

  lemma {:induction false} OrderBasesAt(approximated: bool, size: int, coreSize: int, k: nat, lib: Library, n: nat)
    requires size > 0 && (approximated ==> coreSize > 0) && n < k
    ensures OrderBases(approximated, size, coreSize, k, lib)[n] == BasesBelow(approximated, size, coreSize, n, n + 1, lib)
  {
    if n < k - 1 {
      OrderBasesAt(approximated, size, coreSize, k - 1, lib, n);
    }
  }

  lemma {:induction false} BaseFiltersLength(bases: seq<ZernikeBase>, lib: Library)
    ensures |BaseFilters(bases, lib)| == 2 * |NonZeroBases(bases)|
  {
    if |bases| > 0 {
      BaseFiltersLength(bases[..|bases| - 1], lib);
    }
  }

  /** The filters of one order come in (real, imaginary) pairs, one pair per base
      with m != 0, in the order of the bases. */
  lemma {:induction false} BaseFiltersPairs(bases: seq<ZernikeBase>, lib: Library, i: int)
    requires 0 <= i < |NonZeroBases(bases)|
    ensures 2 * i + 1 < |BaseFilters(bases, lib)|
    ensures NonZeroBases(bases)[i].m != 0
    ensures BaseFilters(bases, lib)[2 * i] == NormalizeMinMax(lib, NonZeroBases(bases)[i].reel)
    ensures BaseFilters(bases, lib)[2 * i + 1] == NormalizeMinMax(lib, NonZeroBases(bases)[i].imag)
  {
    var init := bases[..|bases| - 1];
    BaseFiltersLength(bases, lib);
    BaseFiltersLength(init, lib);
    if i < |NonZeroBases(init)| {
      BaseFiltersPairs(init, lib, i);
    }
  }

  /** Every matrix of ms is a size x size plane. */
  predicate AllSquare(ms: seq<Mat<real>>, size: int)
  {
    forall i :: 0 <= i < |ms| ==> ms[i].HasShape(size, size)
  }

  /** Both parts of every base are size x size planes. */
  predicate BasesSquare(bases: seq<ZernikeBase>, size: int)
  {
    forall i :: 0 <= i < |bases| ==> bases[i].reel.HasShape(size, size) && bases[i].imag.HasShape(size, size)
  }

  lemma AllSquareConcat(a: seq<Mat<real>>, b: seq<Mat<real>>, size: int)
    requires AllSquare(a, size) && AllSquare(b, size)
    ensures AllSquare(a + b, size)
  {
    assert forall i :: |a| <= i < |a + b| ==> (a + b)[i] == b[i - |a|];
  }

  /** Filters of planes of one shape keep that shape. */
  lemma {:induction false} BaseFiltersShapes(bases: seq<ZernikeBase>, lib: Library, size: int)
    requires BasesSquare(bases, size)
    ensures AllSquare(BaseFilters(bases, lib), size)
  {
    if |bases| > 0 {
      var init := bases[..|bases| - 1];
      assert BasesSquare(init, size) by {
        assert forall i :: 0 <= i < |init| ==> init[i] == bases[i];
      }
      BaseFiltersShapes(init, lib, size);
      AllSquareConcat(BaseFilters(init, lib), PairOf(bases[|bases| - 1], lib), size);
    }
  }

  /** Among the bases of order n with m < k (k <= n + 1) those with m != 0 are
      the m in [1, k) of n's parity. */
  lemma {:induction false} NonZeroBasesCount(approximated: bool, size: int, coreSize: int, n: nat, k: nat, lib: Library)
    requires size > 0 && (approximated ==> coreSize > 0) && k <= n + 1
    ensures |NonZeroBases(BasesBelow(approximated, size, coreSize, n, k, lib))| == NonZeroCount(n, k)
  {
    if k > 0 {
      var m := k - 1;
      var init := BasesBelow(approximated, size, coreSize, n, m, lib);
      NonZeroBasesCount(approximated, size, coreSize, n, m, lib);
      CountStep(n, m);
      if NmRelation(n, m) {
        var b := BaseOf(approximated, size, coreSize, n, m, lib);
        var bases := init + [b];
        assert bases[..|bases| - 1] == init;
        assert BasesBelow(approximated, size, coreSize, n, k, lib) == bases;
        assert |NonZeroBases(bases)| == |NonZeroBases(init)| + (if m != 0 then 1 else 0);
      } else {
        assert BasesBelow(approximated, size, coreSize, n, k, lib) == init;
      }
    }
  }

  /** How many m in [1, k) have the parity of n. */
  function NonZeroCount(n: nat, k: nat): nat
  {
    if k == 0 then 0 else (k - 1 + n % 2) / 2
  }

  /** The count grows by one exactly at the valid m != 0. */
  lemma CountStep(n: nat, m: nat)
    requires m <= n
    ensures NonZeroCount(n, m + 1) == NonZeroCount(n, m) + (if NmRelation(n, m) && m != 0 then 1 else 0)
  {
    var p, q := n % 2, m / 2;
    assert n == 2 * (n / 2) + p;
    assert m == 2 * q + m % 2;
    assert NmRelation(n, m) <==> m % 2 == p;
  }

  /** The number of filters of the moment orders 0 .. order, for order <= 3. */
  function FilterCount(order: nat): nat
  {
    if order == 0 then 0 else if order == 1 then 2 else if order == 2 then 4 else 8
  }

  /** Order n adds two filters per valid m != 0. */
  lemma FilterCountStep(n: nat)
    requires n <= 3
    ensures FilterCount(n) == (if n == 0 then 0 else FilterCount(n - 1)) + 2 * NonZeroCount(n, n + 1)
  {
    if n == 0 {
      assert NonZeroCount(0, 1) == 0;
    } else if n == 1 {
      assert NonZeroCount(1, 2) == 1;
    } else if n == 2 {
      assert NonZeroCount(2, 3) == 1;
    } else {
      assert NonZeroCount(3, 4) == 2;
    }
  }

  /** Order k - 1 adds the filters of its own bases after those of the lower orders. */
  lemma FiltersOfStep(approximated: bool, size: int, coreSize: int, k: nat, lib: Library)
    requires size > 0 && (approximated ==> coreSize > 0) && k >= 1
    ensures FiltersOf(OrderBases(approximated, size, coreSize, k, lib), lib) ==
            FiltersOf(OrderBases(approximated, size, coreSize, k - 1, lib), lib) +
            BaseFilters(BasesBelow(approximated, size, coreSize, k - 1, k, lib), lib)
  {
    var orders := OrderBases(approximated, size, coreSize, k, lib);
    assert orders[..k - 1] == OrderBases(approximated, size, coreSize, k - 1, lib);
  }

  /** Order n contributes two filters per valid m != 0. */
  lemma OrderFilterCount(approximated: bool, size: int, coreSize: int, n: nat, lib: Library)
    requires size > 0 && (approximated ==> coreSize > 0)
    ensures |BaseFilters(BasesBelow(approximated, size, coreSize, n, n + 1, lib), lib)| == 2 * NonZeroCount(n, n + 1)
  {
    NonZeroBasesCount(approximated, size, coreSize, n, n + 1, lib);
    BaseFiltersLength(BasesBelow(approximated, size, coreSize, n, n + 1, lib), lib);
  }

  lemma {:induction false} FiltersOfLength(approximated: bool, size: int, coreSize: int, k: nat, lib: Library)
    requires size > 0 && (approximated ==> coreSize > 0) && 1 <= k <= 4
    ensures |FiltersOf(OrderBases(approximated, size, coreSize, k, lib), lib)| == FilterCount(k - 1)
  {
    FiltersOfStep(approximated, size, coreSize, k, lib);
    OrderFilterCount(approximated, size, coreSize, k - 1, lib);
    FilterCountStep(k - 1);
    if k > 1 {
      FiltersOfLength(approximated, size, coreSize, k - 1, lib);
    }
  }

  lemma {:induction false} BasesBelowShapes(approximated: bool, size: int, coreSize: int, n: int, k: nat, lib: Library)
    requires size > 0 && (approximated ==> coreSize > 0)
    ensures BasesSquare(BasesBelow(approximated, size, coreSize, n, k, lib), size)
  {
    if k > 0 {
      var init := BasesBelow(approximated, size, coreSize, n, k - 1, lib);
      BasesBelowShapes(approximated, size, coreSize, n, k - 1, lib);
      if NmRelation(n, k - 1) {
        var bases := init + [BaseOf(approximated, size, coreSize, n, k - 1, lib)];
        assert forall i :: 0 <= i < |init| ==> bases[i] == init[i];
      }
    }
  }

  /** Every base of every order is a size x size plane. */
  predicate OrdersSquare(orders: seq<seq<ZernikeBase>>, size: int)
  {
    forall n :: 0 <= n < |orders| ==> BasesSquare(orders[n], size)
  }

  lemma OrderBasesShapes(approximated: bool, size: int, coreSize: int, k: nat, lib: Library)
    requires size > 0 && (approximated ==> coreSize > 0)
    ensures OrdersSquare(OrderBases(approximated, size, coreSize, k, lib), size)
  {
    forall n | 0 <= n < k
      ensures BasesSquare(OrderBases(approximated, size, coreSize, k, lib)[n], size)
    {
      OrderBasesAt(approximated, size, coreSize, k, lib, n);
      BasesBelowShapes(approximated, size, coreSize, n, n + 1, lib);
    }
  }

  lemma {:induction false} FiltersOfShapes(orders: seq<seq<ZernikeBase>>, lib: Library, size: int)
    requires OrdersSquare(orders, size)
    ensures AllSquare(FiltersOf(orders, lib), size)
  {
    if |orders| > 0 {
      var init := orders[..|orders| - 1];
      assert OrdersSquare(init, size) by {
        assert forall n :: 0 <= n < |init| ==> init[n] == orders[n];
      }
      FiltersOfShapes(init, lib, size);
      BaseFiltersShapes(orders[|orders| - 1], lib, size);
      AllSquareConcat(FiltersOf(init, lib), BaseFilters(orders[|orders| - 1], lib), size);
    }
  }

  /** The core size of the generator an extractor builds: FILTER_CORE_SIZE for the
      approximated one; the exact generator has none (0). */
  function CoreSizeOf(filterType: FilterType): int
  {
    if filterType == Approximated then FilterCoreSize else 0
  }

  /** The bank of a configuration: Zernike orders 0 .. momentOrder on a patch x patch
      grid (the approximated extractor evaluates them on the 4 x 4 core). */
  function FilterBank(filterType: FilterType, patchSize: int, momentOrder: nat, lib: Library): seq<Mat<real>>
    requires patchSize > 0
  {
    FiltersOf(OrderBases(filterType == Approximated, patchSize, CoreSizeOf(filterType), momentOrder + 1, lib), lib)
  }

  /** Moment orders 1, 2 and 3 give 2, 4 and 8 filters, that is 2^order. */
  lemma FilterBankSize(filterType: FilterType, patchSize: int, momentOrder: nat, lib: Library)
    requires patchSize > 0 && 1 <= momentOrder <= 3
    ensures |FilterBank(filterType, patchSize, momentOrder, lib)| == Pow2(momentOrder)
  {
    FilterBankCount(filterType, patchSize, momentOrder, lib);
    FilterCountPowers(momentOrder);
  }

  lemma FilterBankCount(filterType: FilterType, patchSize: int, momentOrder: nat, lib: Library)
    requires patchSize > 0 && momentOrder <= 3
    ensures |FilterBank(filterType, patchSize, momentOrder, lib)| == FilterCount(momentOrder)
  {
    FiltersOfLength(filterType == Approximated, patchSize, CoreSizeOf(filterType), momentOrder + 1, lib);
  }

  lemma FilterCountPowers(order: nat)
    requires 1 <= order <= 3
    ensures FilterCount(order) == Pow2(order)
  {
    if order == 1 {
      assert Pow2(1) == 2;
    } else if order == 2 {
      assert Pow2(2) == 4;
    } else {
      assert Pow2(3) == 8;
    }
  }

  /** Every filter has the patch shape, for both filter types. */
  lemma FilterBankShapes(filterType: FilterType, patchSize: int, momentOrder: nat, lib: Library)
    requires patchSize > 0
    ensures AllSquare(FilterBank(filterType, patchSize, momentOrder, lib), patchSize)
  {
    OrderBasesShapes(filterType == Approximated, patchSize, CoreSizeOf(filterType), momentOrder + 1, lib);
    FiltersOfShapes(OrderBases(filterType == Approximated, patchSize, CoreSizeOf(filterType), momentOrder + 1, lib), lib, patchSize);
  }

  /** The inner loop of createFilters over the bases of one order. */
  method AppendFilters(filters: seq<Mat<real>>, bases: seq<ZernikeBase>, lib: Library) returns (out: seq<Mat<real>>)
    ensures out == filters + BaseFilters(bases, lib)
  {
    out := filters;
    for i := 0 to |bases|
      invariant out == filters + BaseFilters(bases[..i], lib)
    {
      assert bases[..i + 1][..i] == bases[..i];
      if bases[i].m != 0 {
        var reel := NormalizeMinMax(lib, bases[i].reel);
        var imag := NormalizeMinMax(lib, bases[i].imag);
        out := out + [reel];
        out := out + [imag];
      }
    }
    assert bases[..|bases|] == bases;
  }

  /** One round of the outer loop of createFilters: the bases of order n, appended. */
  method AppendOrder(generator: ZernikeBaseGenerator, n: nat, filters: seq<Mat<real>>, lib: Library) returns (out: seq<Mat<real>>)
    requires generator.Valid()
    requires filters == FiltersOf(OrderBases(generator.approximated, generator.size, generator.coreSize, n, lib), lib)
    ensures out == FiltersOf(OrderBases(generator.approximated, generator.size, generator.coreSize, n + 1, lib), lib)
  {
    var bases := generator.GenerateAll(n, lib);
    out := AppendFilters(filters, bases.value, lib);
    FiltersOfStep(generator.approximated, generator.size, generator.coreSize, n + 1, lib);
  }

  /** createFilters(baseGenerator, momentOrder): the bank of orders 0 .. momentOrder. */
  method CreateFilters(generator: ZernikeBaseGenerator, momentOrder: int, lib: Library) returns (filters: seq<Mat<real>>)
    requires generator.Valid()
    ensures momentOrder >= 0 ==>
              filters == FiltersOf(OrderBases(generator.approximated, generator.size, generator.coreSize, momentOrder + 1, lib), lib)
    ensures momentOrder < 0 ==> filters == []
  {
    filters := [];
    if momentOrder < 0 {
      return;
    }
    for n := 0 to momentOrder + 1
      invariant filters == FiltersOf(OrderBases(generator.approximated, generator.size, generator.coreSize, n, lib), lib)
    {
      filters := AppendOrder(generator, n, filters, lib);
    }
  }

  /* ---------------------------------------------------------------------------
     The extractor object
     --------------------------------------------------------------------------- */

  /** What the constructor of each extractor accepts: the three setters in order
      (the step is checked against the patch just set), and for the approximated
      extractor getOverlapDensity, which needs the patch to be a multiple of the step. */
  predicate ConfigOk(filterType: FilterType, patchSize: int, stepSize: int, momentOrder: int)
  {
    patchSize > 3 && 0 < stepSize < patchSize && 0 < momentOrder < 4 &&
    (filterType == Approximated ==> patchSize % stepSize == 0)
  }

  /** Which windows applyFilters can read: every regular filter covers the patch;
      the approximated variant reads the 4 x 4 core and is called with patch 4. */
  predicate CodesDefined(filterType: FilterType, filters: seq<Mat<real>>, patch: int)
  {
    if filterType == Regular then forall k :: 0 <= k < |filters| ==> Covers(filters[k], patch)
    else patch == FilterCoreSize
  }

  /** The code applyFilters gives the window with top-left cell (top, left). */
  function WindowCode(filterType: FilterType, momentOrder: int, input: Mat<real>, top: int, left: int,
                      patch: nat, filters: seq<Mat<real>>): nat
    requires WindowInside(input, top, left, patch) && CodesDefined(filterType, filters, patch)
  {
    if filterType == Regular then Byte(Signs(input, top, left, filters, patch))
    else PackBits(CoreFlags(momentOrder, Core(input, top, left)))
  }

  /** When compute gets through: cv::Mat::zeros refuses a negative grid size, and
      the first window's ROI must fit when the grid is not empty. */
  predicate ComputeOk(input: Mat<real>, patch: int, step: int)
    requires step > 0
  {
    var rows, cols := GridLength(input.rows, patch, step), GridLength(input.cols, patch, step);
    rows >= 0 && cols >= 0 && (rows > 0 && cols > 0 ==> patch <= input.rows && patch <= input.cols)
  }

  /** m is the pattern image of input: one code per window position (i, j), the
      window starting at row i * step and column j * step. */
  predicate IsPatternImage(m: Mat<nat>, filterType: FilterType, momentOrder: int, input: Mat<real>,
                           patch: nat, step: int, filters: seq<Mat<real>>)
    requires step > 0 && CodesDefined(filterType, filters, patch)
  {
    var rows, cols := GridLength(input.rows, patch, step), GridLength(input.cols, patch, step);
    rows >= 0 && cols >= 0 && m.HasShape(rows, cols) &&
    forall i, j :: 0 <= i < rows && 0 <= j < cols ==>
      WindowInside(input, i * step, j * step, patch) &&
      m.At(i, j) == WindowCode(filterType, momentOrder, input, i * step, j * step, patch, filters)
  }

  /** The windows of grid row i up to column j lie inside the image. */
  predicate WindowInsideRow(input: Mat<real>, i: int, patch: int, step: int, j: int)
  {
    forall j' :: 0 <= j' < j ==> WindowInside(input, i * step, j' * step, patch)
  }

  /** The checks both extract methods start with. */
  predicate ImageOk(image: Mat<real>)
  {
    !image.IsEmpty() && image.channels == 1 && image.rows > 0 && image.cols > 0
  }

  /** An image at least one window tall and wide always gets a non-empty grid. */
  lemma ComputeOkWhenLarge(input: Mat<real>, patch: int, step: int)
    requires step > 0 && patch <= input.rows && patch <= input.cols
    ensures ComputeOk(input, patch, step)
    ensures GridLength(input.rows, patch, step) >= 1 && GridLength(input.cols, patch, step) >= 1
  {
    WindowsInside(input.rows, patch, step, 0);
    WindowsInside(input.cols, patch, step, 0);
  }

  /** Every code of a valid bank of 2^order filters fits in |filters| bits, hence
      below the bin count 2^|filters| the pipeline gives its histograms. */
  lemma WindowCodeBound(filterType: FilterType, momentOrder: int, input: Mat<real>, top: int, left: int,
                        patch: nat, filters: seq<Mat<real>>)
    requires WindowInside(input, top, left, patch) && CodesDefined(filterType, filters, patch)
    requires 0 < momentOrder < 4 && |filters| == Pow2(momentOrder)
    ensures WindowCode(filterType, momentOrder, input, top, left, patch, filters) < Pow2(|filters|)
  {
    FilterCountPowers(momentOrder);
    if filterType == Regular {
      RegularCodeBits(input, top, left, filters, patch, 0);
    } else {
      CoreCodeBits(momentOrder, Core(input, top, left), 0);
      CoreCodeBoundPowers(momentOrder);
    }
  }

  /** Hence every cell of a pattern image lies below 2^|filters|. */
  lemma PatternImageBound(m: Mat<nat>, filterType: FilterType, momentOrder: int, input: Mat<real>,
                          patch: nat, step: int, filters: seq<Mat<real>>, i: int, j: int)
    requires step > 0 && CodesDefined(filterType, filters, patch)
    requires IsPatternImage(m, filterType, momentOrder, input, patch, step, filters)
    requires 0 < momentOrder < 4 && |filters| == Pow2(momentOrder)
    requires 0 <= i < m.rows && 0 <= j < m.cols
    ensures m.At(i, j) < Pow2(|filters|)
  {
    WindowCodeBound(filterType, momentOrder, input, i * step, j * step, patch, filters);
  }

  /** The code of window (i, j), 0 outside the image. */
  function WindowCell(filterType: FilterType, momentOrder: int, input: Mat<real>, patch: nat, step: int,
                      filters: seq<Mat<real>>): (int, int) -> nat
    requires CodesDefined(filterType, filters, patch)
  {
    (i, j) =>
      if WindowInside(input, i * step, j * step, patch)
      then WindowCode(filterType, momentOrder, input, i * step, j * step, patch, filters)
      else 0
  }

  /** The pattern image compute produces, as a value: there is exactly one (see
      PatternImageUnique). */
  function PatternImage(filterType: FilterType, momentOrder: int, input: Mat<real>, patch: nat, step: int,
                        filters: seq<Mat<real>>): (m: Mat<nat>)
    requires step > 0 && input.IsPlane() && CodesDefined(filterType, filters, patch) && ComputeOk(input, patch, step)
    ensures IsPatternImage(m, filterType, momentOrder, input, patch, step, filters)
  {
    var rows, cols := GridLength(input.rows, patch, step), GridLength(input.cols, patch, step);
    var f := WindowCell(filterType, momentOrder, input, patch, step, filters);
    forall i, j | 0 <= i < rows && 0 <= j < cols
      ensures WindowInside(input, i * step, j * step, patch)
      ensures Tabulate(rows, cols, f).At(i, j) == WindowCode(filterType, momentOrder, input, i * step, j * step, patch, filters)
    {
      WindowsInside(input.rows, patch, step, i);
      WindowsInside(input.cols, patch, step, j);
      TabulateAt(rows, cols, f, i, j);
    }
    Tabulate(rows, cols, f)
  }

  /** Two pattern images of the same input are equal. */
  lemma PatternImageUnique(m: Mat<nat>, filterType: FilterType, momentOrder: int, input: Mat<real>, patch: nat,
                           step: int, filters: seq<Mat<real>>)
    requires step > 0 && input.IsPlane() && CodesDefined(filterType, filters, patch) && ComputeOk(input, patch, step)
    requires IsPatternImage(m, filterType, momentOrder, input, patch, step, filters)
    ensures m == PatternImage(filterType, momentOrder, input, patch, step, filters)
  {
    PlaneEquality(m, PatternImage(filterType, momentOrder, input, patch, step, filters));
  }

  /** The approximated extractor accepts patch 32 with step 4, and then the stride
      of its down-sampled grid, step / (patch / 4), is 0. */
  lemma ZeroStrideConfiguration()
    ensures ConfigOk(Approximated, 32, 4, 2) && 4 / (32 / FilterCoreSize) == 0
  {
  }

  /** A step that divides the patch and is smaller goes into it at least twice. */
  lemma ExactQuotient(patch: int, step: int)
    requires 0 < step < patch && patch % step == 0
    ensures (patch / step) * step == patch && patch / step >= 2
  {
    var q := patch / step;
    assert q * step == patch;
    if q < 2 {
      MulMonotone(q, 1, step);
    }
  }

  /** What extract hands to compute: the regular extractor the image itself with
      its patch and step; the approximated one the image shrunk by patch / 4 with
      window 4 and stride step / (patch / 4). */
  function InputFor(filterType: FilterType, patchSize: int, image: Mat<real>, lib: Library): (input: Mat<real>)
    requires patchSize >= 0 && image.WellFormed()
    ensures image.channels == 1 ==> input.IsPlane()
  {
    if filterType == Regular then image else Shrink(lib, image, patchSize / FilterCoreSize)
  }

  function PatchFor(filterType: FilterType, patchSize: int): nat
    requires patchSize >= 0
  {
    if filterType == Regular then patchSize else FilterCoreSize
  }

  function StepFor(filterType: FilterType, patchSize: int, stepSize: int): int
    requires patchSize >= FilterCoreSize
  {
    if filterType == Regular then stepSize else stepSize / (patchSize / FilterCoreSize)
  }

  /** PatternImageExtractor with its two subclasses, told apart by `filterType`. */
  class PatternImageExtractor {
    const filterType: FilterType
    var patchSize: int
    var stepSize: int
    var momentOrder: int
    var filters: seq<Mat<real>>

    /** What every setter keeps. The step is checked against the patch only when
        it is set, so a later setPatchSize may leave step >= patch. */
    ghost predicate Valid()
      reads this
    {
      patchSize > 3 && stepSize > 0 && 0 < momentOrder < 4
    }

    /** The object before the base constructor's setters run. */
    constructor Blank(filterType: FilterType)
      ensures this.filterType == filterType
      ensures patchSize == 0 && stepSize == 0 && momentOrder == 0 && filters == []
    {
      this.filterType := filterType;
      patchSize := 0;
      stepSize := 0;
      momentOrder := 0;
      filters := [];
    }

    /** setPatchSize: requires patchSize > 3. */
    method SetPatchSize(patchSize: int) returns (ok: bool)
      modifies this
      ensures ok == (patchSize > 3)
      ensures this.patchSize == (if ok then patchSize else old(this.patchSize))
      ensures stepSize == old(stepSize) && momentOrder == old(momentOrder) && filters == old(filters)
    {
      ok := patchSize > 3;
      if ok {
        this.patchSize := patchSize;
      }
    }

    /** setStepSize: requires 0 < stepSize < the current patch size. */
    method SetStepSize(stepSize: int) returns (ok: bool)
      modifies this
      ensures ok == (0 < stepSize < patchSize)
      ensures this.stepSize == (if ok then stepSize else old(this.stepSize))
      ensures patchSize == old(patchSize) && momentOrder == old(momentOrder) && filters == old(filters)
    {
      ok := 0 < stepSize < patchSize;
      if ok {
        this.stepSize := stepSize;
      }
    }

    /** setMomentOrder: requires 0 < momentOrder < 4. */
    method SetMomentOrder(momentOrder: int) returns (ok: bool)
      modifies this
      ensures ok == (0 < momentOrder < 4)
      ensures this.momentOrder == (if ok then momentOrder else old(this.momentOrder))
      ensures patchSize == old(patchSize) && stepSize == old(stepSize) && filters == old(filters)
    {
      ok := 0 < momentOrder < 4;
      if ok {
        this.momentOrder := momentOrder;
      }
    }

    /** getOverlapDensity: patch / step, asserted only when the step divides the
        patch and both are in range; the density is then at least 2. */
    function OverlapDensity(): (r: Result<int>)
      reads this
      requires stepSize != 0
      ensures r.Ok? <==> patchSize % stepSize == 0 && 0 < stepSize < patchSize && patchSize > 3
      ensures r.Ok? ==> r.value * stepSize == patchSize && r.value >= 2
      ensures r.Err? ==> r.error == InvalidConfiguration
    {
      if patchSize % stepSize == 0 && 0 < stepSize < patchSize && patchSize > 3 then
        ExactQuotient(patchSize, stepSize);
        Ok(patchSize / stepSize)
      else Err(InvalidConfiguration)
    }

    /** PatternImageExtractor::create and the two subclass constructors: the base
        constructor's setters, then (approximated only) getOverlapDensity, then the
        filter bank from a generator of patch x patch bases (the approximated one
        evaluated on the 4 x 4 core). */
    static method Create(filterType: FilterType, patchSize: int, stepSize: int, momentOrder: int, lib: Library)
      returns (r: Result<PatternImageExtractor>)
      ensures r.Ok? <==> ConfigOk(filterType, patchSize, stepSize, momentOrder)
      ensures r.Err? ==> r.error == InvalidConfiguration
      ensures r.Ok? ==> fresh(r.value) && r.value.Valid() && r.value.filterType == filterType
                        && r.value.patchSize == patchSize && r.value.stepSize == stepSize
                        && r.value.momentOrder == momentOrder
                        && r.value.filters == FilterBank(filterType, patchSize, momentOrder, lib)
    {
      var e := new PatternImageExtractor.Blank(filterType);
      var ok := e.SetPatchSize(patchSize);
      if !ok {
        return Err(InvalidConfiguration);
      }
      ok := e.SetStepSize(stepSize);
      if !ok {
        return Err(InvalidConfiguration);
      }
      ok := e.SetMomentOrder(momentOrder);
      if !ok {
        return Err(InvalidConfiguration);
      }
      var g: Result<ZernikeBaseGenerator>;
      if filterType == Regular {
        g := ZernikeBaseGenerator.NewExact(patchSize);
      } else {
        var density := e.OverlapDensity();
        if density.Err? {
          return Err(InvalidConfiguration);
        }
        g := ZernikeBaseGenerator.NewApproximated(patchSize, FilterCoreSize);
      }
      var bank := CreateFilters(g.value, momentOrder, lib);
      e.filters := bank;
      r := Ok(e);
    }

    /** The virtual applyFilters: the regular one over the bank, the approximated
        one over the 4 x 4 core, gated by the current moment order. */
    method ApplyFilters(patch: nat, input: Mat<real>, top: int, left: int, filters: seq<Mat<real>>)
      returns (value: nat)
      requires WindowInside(input, top, left, patch) && CodesDefined(filterType, filters, patch)
      ensures value == WindowCode(filterType, momentOrder, input, top, left, patch, filters)
    {
      if filterType == Regular {
        value := RegularApplyFilters(patch, input, top, left, filters);
      } else {
        value := ApproximatedApplyFilters(momentOrder, input, top, left);
      }
    }

    /** Row i of compute's double loop. */
    method ComputeRow(codes: array2<nat>, i: nat, input: Mat<real>, patch: nat, step: int, filters: seq<Mat<real>>)
      requires step > 0 && input.IsPlane() && CodesDefined(filterType, filters, patch)
      requires i < codes.Length0 == GridLength(input.rows, patch, step)
      requires codes.Length1 == GridLength(input.cols, patch, step)
      requires codes.Length1 > 0 ==> patch <= input.rows && patch <= input.cols
      modifies codes
      ensures WindowInsideRow(input, i, patch, step, codes.Length1)
      ensures forall j :: 0 <= j < codes.Length1 ==>
                codes[i, j] == WindowCode(filterType, momentOrder, input, i * step, j * step, patch, filters)
      ensures forall i', j :: 0 <= i' < codes.Length0 && 0 <= j < codes.Length1 && i' != i ==>
                codes[i', j] == old(codes[i', j])
    {
      for j := 0 to codes.Length1
        invariant WindowInsideRow(input, i, patch, step, j)
        invariant forall j' :: 0 <= j' < j ==>
                    codes[i, j'] == WindowCode(filterType, momentOrder, input, i * step, j' * step, patch, filters)
        invariant forall i', j' :: 0 <= i' < codes.Length0 && 0 <= j' < codes.Length1 && i' != i ==>
                    codes[i', j'] == old(codes[i', j'])
      {
        WindowsInside(input.rows, patch, step, i);
        WindowsInside(input.cols, patch, step, j);
        var code := ApplyFilters(patch, input, i * step, j * step, filters);
        codes[i, j] := code;
      }
    }

    /** compute(input, patchSize, stepSize, filters): the grid of window codes. */
    method Compute(input: Mat<real>, patch: nat, step: int, filters: seq<Mat<real>>) returns (r: Result<Mat<nat>>)
      requires step > 0 && input.IsPlane() && CodesDefined(filterType, filters, patch)
      ensures r.Ok? <==> ComputeOk(input, patch, step)
      ensures r.Err? ==> r.error == InvalidInput
      ensures r.Ok? ==> IsPatternImage(r.value, filterType, momentOrder, input, patch, step, filters)
    {
      var rows, cols := GridLength(input.rows, patch, step), GridLength(input.cols, patch, step);
      if rows < 0 || cols < 0 {
        return Err(InvalidInput);
      }
      if rows > 0 && cols > 0 && (input.rows < patch || input.cols < patch) {
        return Err(InvalidInput);
      }
      var codes := new nat[rows, cols]((i, j) => 0);
      for i := 0 to rows
        invariant forall i', j :: 0 <= i' < i && 0 <= j < cols ==>
                    WindowInside(input, i' * step, j * step, patch) &&
                    codes[i', j] == WindowCode(filterType, momentOrder, input, i' * step, j * step, patch, filters)
      {
        ComputeRow(codes, i, input, patch, step, filters);
      }
      var m := Flatten(codes);
      r := Ok(m);
    }

    /** What extract hands to compute (see InputFor, PatchFor and StepFor). */
    function ExtractInput(image: Mat<real>, lib: Library): (input: Mat<real>)
      reads this
      requires Valid() && image.WellFormed()
      ensures image.channels == 1 ==> input.IsPlane()
    {
      InputFor(filterType, patchSize, image, lib)
    }

    function ExtractPatch(): nat
      reads this
      requires Valid()
    {
      PatchFor(filterType, patchSize)
    }

    function ExtractStep(): int
      reads this
      requires Valid()
    {
      StepFor(filterType, patchSize, stepSize)
    }

    /** extract(image), regular and approximated. convertTo(CV_64F) is the identity
        on real matrices. */
    method Extract(image: Mat<real>, lib: Library) returns (r: Result<Mat<nat>>)
      requires Valid() && image.WellFormed()
      requires filterType == Regular ==> forall k :: 0 <= k < |filters| ==> Covers(filters[k], patchSize)
      requires ExtractStep() > 0
      ensures !ImageOk(image) ==> r == Err(InvalidInput)
      ensures ImageOk(image) ==> (r.Ok? <==> ComputeOk(ExtractInput(image, lib), ExtractPatch(), ExtractStep()))
      ensures r.Err? ==> r.error == InvalidInput
      ensures r.Ok? ==> IsPatternImage(r.value, filterType, momentOrder, ExtractInput(image, lib),
                                      ExtractPatch(), ExtractStep(), filters)
    {
      if !ImageOk(image) {
        return Err(InvalidInput);
      }
      var input := ExtractInput(image, lib);
      r := Compute(input, ExtractPatch(), ExtractStep(), filters);
    }
  }
}
