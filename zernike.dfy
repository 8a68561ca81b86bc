/** ZernikeBaseGenerator.cpp: the (n, m) order relation, the enumeration of
    the valid angular orders, the iterative factorial, and the radial sum that
    fills the real and imaginary Zernike grids. The square root and the angle
    (atan2, its wrap to [0, 2pi), std::polar) stay abstract: they come from
    the `Library` parameter; everything else is computed exactly over the reals. */
module Zernike {
  import opened Common

  /** nmRelation(n, m): |m| <= n and n - |m| is even. The `&&` short-circuits,
      so the remainder is only taken of a non-negative number, where C++'s `%`
      and Dafny's agree. */
  predicate NmRelation(n: int, m: int)
  {
    Abs(m) <= n && (n - Abs(m)) % 2 == 0
  }

  /** The relation says: |m| is at most n and has the same parity, whatever the sign of m. */
  lemma NmRelationMeaning(n: int, m: int)
    ensures NmRelation(n, m) <==> Abs(m) <= n && n % 2 == Abs(m) % 2
    ensures NmRelation(n, m) <==> NmRelation(n, -m)
  {
  }

  /** The factorial the generator computes, exactly: 1 for x <= 0, x * (x - 1)! above. */
  function Fact(x: int): (r: real)
    ensures r >= 1.0
  {
    if x <= 0 then 1.0 else x as real * Fact(x - 1)
  }

  /** factorial(x): a loop that multiplies `result` by x and decrements x while x > 0. */
  method Factorial(x: int) returns (result: real)
    ensures result == Fact(x)
  {
    result := 1.0;
    var k := x;
    while k > 0
      invariant result * Fact(k) == Fact(x)
      decreases k
    {
      assert Fact(k) == k as real * Fact(k - 1);
      result := result * k as real;
      k := k - 1;
    }
  }

  /** For a valid pair with m >= 0 and every s of the radial sum, the factorial
      arguments n - s, (n - 2s + m) / 2 and (n - 2s - m) / 2 are non-negative and
      the halvings are exact, and the radial exponent n - 2s is non-negative. */
  lemma RadialIndices(n: int, m: int, s: int)
    requires n >= 0 && m >= 0 && NmRelation(n, m) && 0 <= s <= (n - m) / 2
    ensures n - s >= 0 && n - 2 * s >= 0
    ensures n - 2 * s + m >= 0 && (n - 2 * s + m) % 2 == 0
    ensures n - 2 * s - m >= 0 && (n - 2 * s - m) % 2 == 0
    ensures (n - 2 * s + m) / 2 * 2 == n - 2 * s + m && (n - 2 * s - m) / 2 * 2 == n - 2 * s - m
  {
  }

  lemma ProductAtLeastOne(a: real, b: real)
    requires a >= 1.0 && b >= 1.0
    ensures a * b >= 1.0
  {
    assert a * b - b == (a - 1.0) * b;
  }

  /** The radial coefficient (-1)^s (n - s)! / (s! ((n - 2s + m) / 2)! ((n - 2s - m) / 2)!). */
  function RadialCoefficient(n: int, m: int, s: int): real
    requires n >= 0 && m >= 0 && NmRelation(n, m) && 0 <= s <= (n - m) / 2
  {
    Ratio(RealPow(-1.0, s), Fact(n - s), Fact(s), Fact((n - 2 * s + m) / 2), Fact((n - 2 * s - m) / 2))
  }

  /** sign * a / (b * c * d) for denominators that are at least 1. */
  function Ratio(sign: real, a: real, b: real, c: real, d: real): real
    requires b >= 1.0 && c >= 1.0 && d >= 1.0
  {
    ProductAtLeastOne(b, c);
    ProductAtLeastOne(b * c, d);
    sign * a / (b * c * d)
  }

  /** D^2 for D = size * sqrt(2), taken exactly. */
  function DiagonalSquared(size: int): (d: real)
    requires size > 0
    ensures d > 0.0
  {
    2.0 * (size as real) * (size as real)
  }

  /** Term s of the radial sum at pixel (x, y):
      coefficient * r^(n - 2s) * 4 / D^2 * polar(1, m * theta). */
  function Term(n: int, m: int, size: int, lib: Library, x: int, y: int, s: int): Complex
    requires n >= 0 && m >= 0 && NmRelation(n, m) && size > 0 && 0 <= s <= (n - m) / 2
  {
    RadialIndices(n, m, s);
    ScaledPolar(RadialCoefficient(n, m, s), lib.radius(size, x, y), n - 2 * s, size, lib.polar(m, size, x, y))
  }

  /** coefficient * r^k * 4 / D^2 times the unit phasor. */
  function ScaledPolar(coefficient: real, r: real, k: nat, size: int, phasor: Complex): Complex
    requires size > 0
  {
    Scale(coefficient * RealPow(r, k) * 4.0 / DiagonalSquared(size), phasor)
  }

  /** The first k terms of the radial sum, in the order of the loop over s. */
  function RadialSum(n: int, m: int, size: int, lib: Library, x: int, y: int, k: nat): Complex
    requires n >= 0 && m >= 0 && NmRelation(n, m) && size > 0 && k <= (n - m) / 2 + 1
  {
    if k == 0 then Complex(0.0, 0.0)
    else Add(RadialSum(n, m, size, lib, x, y, k - 1), Term(n, m, size, lib, x, y, k - 1))
  }

  /** The value stored for pixel (x, y): the complex conjugate of the whole sum. */
  function PixelValue(n: int, m: int, size: int, lib: Library, x: int, y: int): Complex
    requires n >= 0 && m >= 0 && NmRelation(n, m) && size > 0
  {
    Conj(RadialSum(n, m, size, lib, x, y, (n - m) / 2 + 1))
  }

  /** The pixel values of the (n, m) grid of the given size, as a function of (x, y). */
  function PixelFn(n: int, m: int, size: int, lib: Library): (int, int) -> Complex
    requires n >= 0 && m >= 0 && NmRelation(n, m) && size > 0
  {
    (x: int, y: int) => PixelValue(n, m, size, lib, x, y)
  }

  /** `f` gives the value of every pixel of the (n, m) grid. It is stated pointwise,
      one pixel at a time, so that a proof about cells never needs to look inside
      the radial sum. */
  ghost predicate Evaluates(f: (int, int) -> Complex, n: int, m: int, size: int, lib: Library)
    requires n >= 0 && m >= 0 && NmRelation(n, m) && size > 0
  {
    forall x, y {:trigger PixelValue(n, m, size, lib, x, y)} :: f(x, y) == PixelValue(n, m, size, lib, x, y)
  }

  /** The real or the imaginary part of a value. */
  function Part(v: Complex, imaginary: bool): real
  {
    if imaginary then v.im else v.re
  }

  /** The first k cells of row y of the grid of pixel values f: the chosen part of
      f(x, y) for x in [0, k), x ascending. */
  function Row(f: (int, int) -> Complex, imaginary: bool, y: int, k: nat): (row: seq<real>)
    ensures |row| == k
  {
    if k == 0 then [] else Row(f, imaginary, y, k - 1) + [Part(f(k - 1, y), imaginary)]
  }

  lemma {:induction false} RowAt(f: (int, int) -> Complex, imaginary: bool, y: int, k: nat)
    ensures forall x :: 0 <= x < k ==> Row(f, imaginary, y, k)[x] == Part(f(x, y), imaginary)
  {
    if k > 0 {
      RowAt(f, imaginary, y, k - 1);
    }
  }

  /** The first k rows of a size x size grid, y ascending. */
  function Rows(f: (int, int) -> Complex, imaginary: bool, size: nat, k: nat): (rows: seq<seq<real>>)
    ensures |rows| == k
  {
    if k == 0 then [] else Rows(f, imaginary, size, k - 1) + [Row(f, imaginary, k - 1, size)]
  }

  lemma {:induction false} RowsAt(f: (int, int) -> Complex, imaginary: bool, size: nat, k: nat)
    ensures forall y :: 0 <= y < k ==> Rows(f, imaginary, size, k)[y] == Row(f, imaginary, y, size)
  {
    if k > 0 {
      RowsAt(f, imaginary, size, k - 1);
    }
  }

  /** The size x size plane whose cell (y, x) is the chosen part of f(x, y). */
  function GridOf(f: (int, int) -> Complex, size: nat, imaginary: bool): (g: Mat<real>)
    requires size > 0
    ensures g.HasShape(size, size)
    ensures forall y, x :: 0 <= y < size && 0 <= x < size ==> g.At(y, x) == Part(f(x, y), imaginary)
  {
    var g := Mat(size, size, 1, seq(size * size, t => Part(f(t % size, t / size), imaginary)));
    forall y, x | 0 <= y < size && 0 <= x < size
      ensures g.At(y, x) == Part(f(x, y), imaginary)
    {
      IndexBound(y, x, size, size);
      DivModOf(y, x, size);
    }
    g
  }

  /** The plane is its rows laid end to end. */
  lemma GridOfRows(f: (int, int) -> Complex, size: nat, imaginary: bool)
    requires size > 0
    ensures GridOf(f, size, imaginary).data == Concat(Rows(f, imaginary, size, size))
  {
    var rows := Rows(f, imaginary, size, size);
    RowsAt(f, imaginary, size, size);
    ConcatLength(rows, size);
    var h := Mat(size, size, 1, Concat(rows));
    forall y, x | 0 <= y < size && 0 <= x < size
      ensures GridOf(f, size, imaginary).At(y, x) == h.At(y, x)
    {
      ConcatAt(rows, size, y, x);
      RowAt(f, imaginary, y, size);
    }
    PlaneEquality(GridOf(f, size, imaginary), h);
  }

  /** The grid compute(n, m, size) fills: pixel (x, y) at row y, column x. */
  function ExactGrid(n: int, m: int, size: int, lib: Library, imaginary: bool): (g: Mat<real>)
    requires n >= 0 && m >= 0 && NmRelation(n, m) && size > 0
    ensures g.HasShape(size, size)
    ensures forall y, x :: 0 <= y < size && 0 <= x < size ==>
              g.At(y, x) == Part(PixelValue(n, m, size, lib, x, y), imaginary)
  {
    GridOf(PixelFn(n, m, size, lib), size, imaginary)
  }

  /** The innermost loop of compute: the radial sum at one pixel, term by term,
      each term calling factorial four times. */
  method RadialSumAt(n: int, m: int, size: int, lib: Library, x: int, y: int) returns (value: Complex)
    requires n >= 0 && m >= 0 && NmRelation(n, m) && size > 0
    ensures value == RadialSum(n, m, size, lib, x, y, (n - m) / 2 + 1)
  {
    value := Complex(0.0, 0.0);
    for s := 0 to (n - m) / 2 + 1
      invariant value == RadialSum(n, m, size, lib, x, y, s)
    {
      RadialIndices(n, m, s);
      var f1 := Factorial(n - s);
      var f2 := Factorial(s);
      var f3 := Factorial((n - 2 * s + m) / 2);
      var f4 := Factorial((n - 2 * s - m) / 2);
      var coefficient := Ratio(RealPow(-1.0, s), f1, f2, f3, f4);
      var term := ScaledPolar(coefficient, lib.radius(size, x, y), n - 2 * s, size, lib.polar(m, size, x, y));
      value := Add(value, term);
    }
  }

  /** The body of compute's pixel loop: pixel (x, y) gets the conjugated radial
      sum at flat index t == y * size + x of both matrices. */
  method StorePixel(n: int, m: int, size: int, lib: Library, ghost f: (int, int) -> Complex,
                    re: array<real>, im: array<real>, y: int, x: int, t: int)
    requires n >= 0 && m >= 0 && NmRelation(n, m) && size > 0 && Evaluates(f, n, m, size, lib)
    requires re.Length == im.Length && re != im
    requires 0 <= t < re.Length
    modifies re, im
    ensures re[t] == Part(f(x, y), false) && im[t] == Part(f(x, y), true)
    ensures forall k :: 0 <= k < re.Length && k != t ==> re[k] == old(re[k]) && im[k] == old(im[k])
  {
    var value := RadialSumAt(n, m, size, lib, x, y);
    assert f(x, y) == PixelValue(n, m, size, lib, x, y);
    re[t] := Conj(value).re;
    im[t] := Conj(value).im;
  }

  /** One row y of compute's pixel loops: the size cells of both flat buffers from
      `base` (that is, y * size) on receive row y of the grids; the cells before
      them are left alone. */
  method FillRow(n: int, m: int, size: int, lib: Library, ghost f: (int, int) -> Complex,
                 re: array<real>, im: array<real>, y: nat, base: nat)
    requires n >= 0 && m >= 0 && NmRelation(n, m) && size > 0 && Evaluates(f, n, m, size, lib)
    requires re.Length == im.Length && re != im && base + size <= re.Length
    modifies re, im
    ensures re[base..base + size] == Row(f, false, y, size) && im[base..base + size] == Row(f, true, y, size)
    ensures re[..base] == old(re[..base]) && im[..base] == old(im[..base])
  {
    for x := 0 to size
      invariant re[base..base + x] == Row(f, false, y, x) && im[base..base + x] == Row(f, true, y, x)
      invariant re[..base] == old(re[..base]) && im[..base] == old(im[..base])
    {
      StorePixel(n, m, size, lib, f, re, im, y, x, base + x);
      assert re[base..base + x + 1] == re[base..base + x] + [re[base + x]];
      assert im[base..base + x + 1] == im[base..base + x] + [im[base + x]];
    }
  }

  /** Storing row y after the first y rows extends the filled prefix by that row. */
  lemma RowStored(f: (int, int) -> Complex, imaginary: bool, size: nat, y: nat,
                  before: seq<real>, after: seq<real>, base: nat)
    requires base + size <= |after| && base <= |before|
    requires before[..base] == Concat(Rows(f, imaginary, size, y))
    requires after[..base] == before[..base] && after[base..base + size] == Row(f, imaginary, y, size)
    ensures after[..base + size] == Concat(Rows(f, imaginary, size, y + 1))
  {
    PrefixGrows(after, Rows(f, imaginary, size, y), Row(f, imaginary, y, size), base);
  }

  /** Row y of compute's pixel loops, stored after the y rows already in place. */
  method FillNextRow(n: int, m: int, size: int, lib: Library, ghost f: (int, int) -> Complex,
                     re: array<real>, im: array<real>, y: nat, base: nat)
    requires n >= 0 && m >= 0 && NmRelation(n, m) && size > 0 && Evaluates(f, n, m, size, lib)
    requires re.Length == im.Length && re != im && base + size <= re.Length
    requires re[..base] == Concat(Rows(f, false, size, y)) && im[..base] == Concat(Rows(f, true, size, y))
    modifies re, im
    ensures re[..base + size] == Concat(Rows(f, false, size, y + 1))
    ensures im[..base + size] == Concat(Rows(f, true, size, y + 1))
  {
    ghost var re0, im0 := re[..], im[..];
    FillRow(n, m, size, lib, f, re, im, y, base);
    RowStored(f, false, size, y, re0, re[..], base);
    RowStored(f, true, size, y, im0, im[..], base);
  }

  /** The two pixel loops of compute over zeroed size x size buffers, row by row. */
  method FillGrid(n: int, m: int, size: int, lib: Library, ghost f: (int, int) -> Complex,
                  re: array<real>, im: array<real>)
    requires n >= 0 && m >= 0 && NmRelation(n, m) && size > 0 && Evaluates(f, n, m, size, lib)
    requires re.Length == size * size && im.Length == size * size && re != im
    modifies re, im
    ensures re[..] == Concat(Rows(f, false, size, size)) && im[..] == Concat(Rows(f, true, size, size))
  {
    var base := 0;
    for y := 0 to size
      invariant base == y * size && base <= re.Length
      invariant re[..base] == Concat(Rows(f, false, size, y)) && im[..base] == Concat(Rows(f, true, size, y))
    {
      MulMonotone(y + 1, size, size);
      assert base + size == (y + 1) * size;
      FillNextRow(n, m, size, lib, f, re, im, y, base);
      base := base + size;
    }
    assert re[..] == re[..base] && im[..] == im[..base];
  }

  /** compute(n, m, size, reel, imag): two zeroed size x size matrices filled pixel by
      pixel, row by row, each pixel accumulating the radial sum term by term. */
  method Compute(n: int, m: int, size: int, lib: Library) returns (reel: Mat<real>, imag: Mat<real>)
    requires n >= 0 && m >= 0 && NmRelation(n, m) && size > 0
    ensures reel == ExactGrid(n, m, size, lib, false)
    ensures imag == ExactGrid(n, m, size, lib, true)
  {
    var re := new real[size * size];
    var im := new real[size * size];
    FillGrid(n, m, size, lib, PixelFn(n, m, size, lib), re, im);
    GridOfRows(PixelFn(n, m, size, lib), size, false);
    GridOfRows(PixelFn(n, m, size, lib), size, true);
    reel := Mat(size, size, 1, re[..]);
    imag := Mat(size, size, 1, im[..]);
  }

  /** A generated basis function: its orders and its two grids. */
  datatype ZernikeBase = ZernikeBase(n: int, m: int, reel: Mat<real>, imag: Mat<real>)

  /** The base generate(n, m) returns: the exact generator evaluates on the full
      size x size grid; the approximated one evaluates on the coreSize grid and
      resizes both parts to size x size with INTER_AREA. */
  function BaseOf(approximated: bool, size: int, coreSize: int, n: int, m: int, lib: Library): (b: ZernikeBase)
    requires n >= 0 && m >= 0 && NmRelation(n, m) && size > 0 && (approximated ==> coreSize > 0)
    ensures b.n == n && b.m == m
    ensures b.reel.HasShape(size, size) && b.imag.HasShape(size, size)
  {
    if approximated then
      ZernikeBase(n, m, ResizeArea(lib, ExactGrid(n, m, coreSize, lib, false), size, size),
                        ResizeArea(lib, ExactGrid(n, m, coreSize, lib, true), size, size))
    else
      ZernikeBase(n, m, ExactGrid(n, m, size, lib, false), ExactGrid(n, m, size, lib, true))
  }

  /** The valid angular orders m in [0, k), ascending: what the loop of generate(n)
      has visited after k rounds. */
  function MsBelow(n: int, k: nat): seq<int>
  {
    if k == 0 then [] else MsBelow(n, k - 1) + (if NmRelation(n, k - 1) then [k - 1] else [])
  }

  /** The angular orders generate(n) returns, ascending. */
  function ValidMs(n: nat): seq<int>
  {
    MsBelow(n, n + 1)
  }

  lemma {:induction false} MsBelowMembers(n: int, k: nat)
    ensures forall m :: m in MsBelow(n, k) <==> 0 <= m < k && NmRelation(n, m)
  {
    if k > 0 {
      MsBelowMembers(n, k - 1);
    }
  }

  lemma {:induction false} MsBelowIncreasing(n: int, k: nat)
    ensures forall i, j :: 0 <= i < j < |MsBelow(n, k)| ==> MsBelow(n, k)[i] < MsBelow(n, k)[j]
  {
    if k > 0 {
      MsBelowIncreasing(n, k - 1);
      MsBelowMembers(n, k - 1);
      var prev := MsBelow(n, k - 1);
      assert forall i :: 0 <= i < |prev| ==> prev[i] in prev;
    }
  }

  lemma {:induction false} MsBelowLength(n: nat, k: nat)
    requires k <= n + 1
    ensures |MsBelow(n, k)| == (k + 1 - n % 2) / 2
  {
    if k > 0 {
      MsBelowLength(n, k - 1);
    }
  }

  /** generate(n) returns exactly the m in [0, n] with nmRelation(n, m), strictly
      increasing, and there are n / 2 + 1 of them. */
  lemma ValidMsProperties(n: nat)
    ensures forall m :: m in ValidMs(n) <==> 0 <= m <= n && NmRelation(n, m)
    ensures forall i, j :: 0 <= i < j < |ValidMs(n)| ==> ValidMs(n)[i] < ValidMs(n)[j]
    ensures |ValidMs(n)| == n / 2 + 1
  {
    MsBelowMembers(n, n + 1);
    MsBelowIncreasing(n, n + 1);
    MsBelowLength(n, n + 1);
  }

  /** The bases the loop of generate(n) has collected after the rounds m = 0 .. k - 1. */
  function BasesBelow(approximated: bool, size: int, coreSize: int, n: int, k: nat, lib: Library): seq<ZernikeBase>
    requires size > 0 && (approximated ==> coreSize > 0)
  {
    if k == 0 then []
    else BasesBelow(approximated, size, coreSize, n, k - 1, lib) +
         (if NmRelation(n, k - 1) then [BaseOf(approximated, size, coreSize, n, k - 1, lib)] else [])
  }

  lemma {:induction false} BasesBelowLength(approximated: bool, size: int, coreSize: int, n: int, k: nat, lib: Library)
    requires size > 0 && (approximated ==> coreSize > 0)
    ensures |BasesBelow(approximated, size, coreSize, n, k, lib)| == |MsBelow(n, k)|
  {
    if k > 0 {
      BasesBelowLength(approximated, size, coreSize, n, k - 1, lib);
    }
  }

  lemma {:induction false} BasesBelowAt(approximated: bool, size: int, coreSize: int, n: int, k: nat, lib: Library, i: int)
    requires size > 0 && (approximated ==> coreSize > 0)
    requires 0 <= i < |MsBelow(n, k)|
    ensures MsBelow(n, k)[i] >= 0 && NmRelation(n, MsBelow(n, k)[i])
    ensures i < |BasesBelow(approximated, size, coreSize, n, k, lib)|
    ensures BasesBelow(approximated, size, coreSize, n, k, lib)[i] == BaseOf(approximated, size, coreSize, n, MsBelow(n, k)[i], lib)
  {
    BasesBelowLength(approximated, size, coreSize, n, k, lib);
    BasesBelowLength(approximated, size, coreSize, n, k - 1, lib);
    if i < |MsBelow(n, k - 1)| {
      BasesBelowAt(approximated, size, coreSize, n, k - 1, lib, i);
    }
  }

  /** generate(n) for n >= 0 yields one base per valid angular order, in the order of
      ValidMs(n): base k is the base of (n, ValidMs(n)[k]), and there are n / 2 + 1. */
  lemma GenerateAllBases(approximated: bool, size: int, coreSize: int, n: nat, lib: Library)
    requires size > 0 && (approximated ==> coreSize > 0)
    ensures |BasesBelow(approximated, size, coreSize, n, n + 1, lib)| == |ValidMs(n)| == n / 2 + 1
    ensures forall k :: 0 <= k < |ValidMs(n)| ==>
              ValidMs(n)[k] >= 0 && NmRelation(n, ValidMs(n)[k]) &&
              BasesBelow(approximated, size, coreSize, n, n + 1, lib)[k] == BaseOf(approximated, size, coreSize, n, ValidMs(n)[k], lib)
  {
    BasesBelowLength(approximated, size, coreSize, n, n + 1, lib);
    ValidMsProperties(n);
    forall k | 0 <= k < |ValidMs(n)|
      ensures ValidMs(n)[k] >= 0 && NmRelation(n, ValidMs(n)[k])
      ensures BasesBelow(approximated, size, coreSize, n, n + 1, lib)[k] == BaseOf(approximated, size, coreSize, n, ValidMs(n)[k], lib)
    {
      BasesBelowAt(approximated, size, coreSize, n, n + 1, lib, k);
    }
  }

  /** ZernikeBaseGenerator and ApproximatedZernikeBaseGenerator as one class with a
      variant tag; `coreSize` is only meaningful for the approximated generator. */
  class ZernikeBaseGenerator {
    const approximated: bool
    var size: int
    var coreSize: int

    ghost predicate Valid()
      reads this
    {
      size > 1 && (approximated ==> coreSize > 1)
    }

    constructor Exact(size: int)
      requires size > 1
      ensures Valid() && !approximated && this.size == size && coreSize == 0
    {
      approximated := false;
      this.size := size;
      coreSize := 0;
    }

    constructor Approximated(size: int, coreSize: int)
      requires size > 1 && 1 < coreSize <= size
      ensures Valid() && approximated && this.size == size && this.coreSize == coreSize
    {
      approximated := true;
      this.size := size;
      this.coreSize := coreSize;
    }

    /** ZernikeBaseGenerator(size): fails unless size > 1. */
    static method NewExact(size: int) returns (r: Result<ZernikeBaseGenerator>)
      ensures r.Ok? <==> size > 1
      ensures r.Ok? ==> fresh(r.value) && r.value.Valid() && !r.value.approximated && r.value.size == size
                        && r.value.coreSize == 0
      ensures r.Err? ==> r.error == InvalidConfiguration
    {
      if size > 1 {
        var g := new ZernikeBaseGenerator.Exact(size);
        r := Ok(g);
      } else {
        r := Err(InvalidConfiguration);
      }
    }

    /** ApproximatedZernikeBaseGenerator(size, coreSize): the size is set first, then
        the core size is checked against it. */
    static method NewApproximated(size: int, coreSize: int) returns (r: Result<ZernikeBaseGenerator>)
      ensures r.Ok? <==> size > 1 && 1 < coreSize <= size
      ensures r.Ok? ==> fresh(r.value) && r.value.Valid() && r.value.approximated
                        && r.value.size == size && r.value.coreSize == coreSize
      ensures r.Err? ==> r.error == InvalidConfiguration
    {
      if size > 1 && 1 < coreSize <= size {
        var g := new ZernikeBaseGenerator.Approximated(size, coreSize);
        r := Ok(g);
      } else {
        r := Err(InvalidConfiguration);
      }
    }

    /** setSize: refuses sizes <= 1 and leaves the generator unchanged then. It does
        not re-check the core size against the new size. */
    method SetSize(size: int) returns (ok: bool)
      modifies this
      ensures ok == (size > 1)
      ensures this.size == (if ok then size else old(this.size))
      ensures coreSize == old(coreSize)
    {
      ok := size > 1;
      if ok {
        this.size := size;
      }
    }

    /** setCoreSize: requires 1 < coreSize <= the current size. */
    method SetCoreSize(coreSize: int) returns (ok: bool)
      requires approximated
      modifies this
      ensures ok == (1 < coreSize <= size)
      ensures this.coreSize == (if ok then coreSize else old(this.coreSize))
      ensures size == old(size)
    {
      ok := 1 < coreSize <= size;
      if ok {
        this.coreSize := coreSize;
      }
    }

    /** generate(n, m): rejects n < 0, m < 0 (even where nmRelation, which looks at
        |m|, would hold) and invalid pairs; otherwise the base tagged (n, m). */
    method Generate(n: int, m: int, lib: Library) returns (r: Result<ZernikeBase>)
      requires Valid()
      ensures r.Ok? <==> n >= 0 && m >= 0 && NmRelation(n, m)
      ensures r.Err? ==> r.error == InvalidOrder
      ensures r.Ok? ==> r.value == BaseOf(approximated, size, coreSize, n, m, lib)
    {
      if !(n >= 0 && m >= 0) || !NmRelation(n, m) {
        return Err(InvalidOrder);
      }
      var reel, imag;
      if approximated {
        reel, imag := Compute(n, m, coreSize, lib);
        reel := ResizeArea(lib, reel, size, size);
        imag := ResizeArea(lib, imag, size, size);
      } else {
        reel, imag := Compute(n, m, size, lib);
      }
      r := Ok(ZernikeBase(n, m, reel, imag));
    }

    /** One round m of the loop of generate(n): appends the base of (n, m) when the
        pair is valid. */
    method GenerateRound(n: int, m: nat, bases: seq<ZernikeBase>, lib: Library) returns (next: seq<ZernikeBase>)
      requires Valid()
      requires bases == BasesBelow(approximated, size, coreSize, n, m, lib)
      ensures next == BasesBelow(approximated, size, coreSize, n, m + 1, lib)
    {
      next := bases;
      if NmRelation(n, m) {
        var base := Generate(n, m, lib);
        next := bases + [base.value];
      }
    }

    /** generate(n): rejects n < 0; otherwise one base per valid m in [0, n], in
        increasing m. */
    method GenerateAll(n: int, lib: Library) returns (r: Result<seq<ZernikeBase>>)
      requires Valid()
      ensures r.Ok? <==> n >= 0
      ensures r.Err? ==> r.error == InvalidOrder
      ensures r.Ok? ==> r.value == BasesBelow(approximated, size, coreSize, n, n + 1, lib)
    {
      if n < 0 {
        return Err(InvalidOrder);
      }
      var bases: seq<ZernikeBase> := [];
      for m := 0 to n + 1
        invariant bases == BasesBelow(approximated, size, coreSize, n, m, lib)
      {
        bases := GenerateRound(n, m, bases, lib);
      }
      r := Ok(bases);
    }
  }
}
