/** HistogramBuilder: the descriptor of a pattern image, made of one
    Gaussian-weighted, L2-normalised code histogram per region of a grid and,
    optionally, per region of the same grid shifted by half a region. */
module Histograms {
  import opened Common

  /** std::numeric_limits<double>::epsilon(), 2^-52. */
  const Epsilon: real := 1.0 / 4503599627370496.0

  /* ---------------------------------------------------------------------------
     The histogram of one region (getRegionHistogram)
     --------------------------------------------------------------------------- */

  /** Every cell of the plane holds a code below `bins`: histogram.at(0, bin)
      is only defined for such codes. */
  predicate CodesBelow(image: Mat<nat>, bins: int)
  {
    image.IsPlane() && forall i, j :: 0 <= i < image.rows && 0 <= j < image.cols ==> image.At(i, j) < bins
  }

  /** The kernel weight over the cells (i, jj), jj < k, of row i whose code is b. */
  function RowWeight(region: Mat<nat>, kernel: Mat<real>, b: int, i: int, k: nat): real
    requires region.IsPlane() && kernel.HasShape(region.rows, region.cols)
    requires 0 <= i < region.rows && k <= region.cols
  {
    if k == 0 then 0.0
    else RowWeight(region, kernel, b, i, k - 1) + (if region.At(i, k - 1) == b then kernel.At(i, k - 1) else 0.0)
  }

  /** The kernel weight over the cells of rows i < k whose code is b. */
  function Weight(region: Mat<nat>, kernel: Mat<real>, b: int, k: nat): real
    requires region.IsPlane() && kernel.HasShape(region.rows, region.cols) && k <= region.rows
  {
    if k == 0 then 0.0
    else Weight(region, kernel, b, k - 1) + RowWeight(region, kernel, b, k - 1, region.cols)
  }

  /** The histogram before normalisation: bin b is the total kernel weight of the
      region's cells with code b. */
  function RawHistogram(region: Mat<nat>, kernel: Mat<real>, bins: nat): seq<real>
    requires region.IsPlane() && kernel.HasShape(region.rows, region.cols)
  {
    seq(bins, b => Weight(region, kernel, b, region.rows))
  }

  /** histogram / (cv::norm(histogram, NORM_L2) + epsilon). */
  function Normalize(lib: Library, raw: seq<real>): (h: seq<real>)
    ensures |h| == |raw|
  {
    var d := L2Norm(lib, raw) + Epsilon;
    seq(|raw|, b requires 0 <= b < |raw| => raw[b] / d)
  }

  /** Normalisation divides every bin by the same positive number: it is undone by
      multiplying back, and keeps zeros and signs. */
  lemma NormalizeScales(lib: Library, raw: seq<real>, b: int)
    requires 0 <= b < |raw|
    ensures L2Norm(lib, raw) + Epsilon > 0.0
    ensures Normalize(lib, raw)[b] * (L2Norm(lib, raw) + Epsilon) == raw[b]
    ensures raw[b] == 0.0 <==> Normalize(lib, raw)[b] == 0.0
    ensures raw[b] > 0.0 <==> Normalize(lib, raw)[b] > 0.0
  {
  }

  /** Normalisation keeps the order of the bins. */
  lemma NormalizeMonotone(lib: Library, raw: seq<real>, a: int, b: int)
    requires 0 <= a < |raw| && 0 <= b < |raw|
    ensures raw[a] <= raw[b] <==> Normalize(lib, raw)[a] <= Normalize(lib, raw)[b]
    ensures raw[a] < raw[b] <==> Normalize(lib, raw)[a] < Normalize(lib, raw)[b]
  {
  }

  /** A code that no cell of a row holds gets no weight from that row. */
  lemma {:induction false} RowWeightAbsent(region: Mat<nat>, kernel: Mat<real>, b: int, i: int, k: nat)
    requires region.IsPlane() && kernel.HasShape(region.rows, region.cols)
    requires 0 <= i < region.rows && k <= region.cols
    requires forall jj :: 0 <= jj < k ==> region.At(i, jj) != b
    ensures RowWeight(region, kernel, b, i, k) == 0.0
  {
    if k > 0 {
      RowWeightAbsent(region, kernel, b, i, k - 1);
    }
  }

  /** A code that no cell of the region holds gets an empty bin, before and after
      normalisation. */
  lemma {:induction false} WeightAbsent(region: Mat<nat>, kernel: Mat<real>, b: int, k: nat)
    requires region.IsPlane() && kernel.HasShape(region.rows, region.cols) && k <= region.rows
    requires forall i, j :: 0 <= i < k && 0 <= j < region.cols ==> region.At(i, j) != b
    ensures Weight(region, kernel, b, k) == 0.0
  {
    if k > 0 {
      WeightAbsent(region, kernel, b, k - 1);
      RowWeightAbsent(region, kernel, b, k - 1, region.cols);
    }
  }

  lemma AbsentCodeEmptyBin(lib: Library, region: Mat<nat>, kernel: Mat<real>, bins: nat, b: int)
    requires region.IsPlane() && kernel.HasShape(region.rows, region.cols) && 0 <= b < bins
    requires forall i, j :: 0 <= i < region.rows && 0 <= j < region.cols ==> region.At(i, j) != b
    ensures Normalize(lib, RawHistogram(region, kernel, bins))[b] == 0.0
  {
    WeightAbsent(region, kernel, b, region.rows);
    NormalizeScales(lib, RawHistogram(region, kernel, bins), b);
  }

  /** The inner loop of getRegionHistogram over row i. */
  method AccumulateRow(region: Mat<nat>, kernel: Mat<real>, hist: array<real>, i: nat)
    requires kernel.HasShape(region.rows, region.cols) && CodesBelow(region, hist.Length) && i < region.rows
    requires forall b :: 0 <= b < hist.Length ==> hist[b] == Weight(region, kernel, b, i)
    modifies hist
    ensures forall b :: 0 <= b < hist.Length ==> hist[b] == Weight(region, kernel, b, i + 1)
  {
    for j := 0 to region.cols
      invariant forall b :: 0 <= b < hist.Length ==>
                  hist[b] == Weight(region, kernel, b, i) + RowWeight(region, kernel, b, i, j)
    {
      var bin := region.At(i, j);
      hist[bin] := hist[bin] + kernel.At(i, j);
    }
  }

  /** getRegionHistogram: bin b accumulates the kernel weight of every cell whose
      code is b; the histogram is then L2-normalised. */
  method RegionHistogram(region: Mat<nat>, binCount: nat, kernel: Mat<real>, lib: Library) returns (h: seq<real>)
    requires kernel.HasShape(region.rows, region.cols) && CodesBelow(region, binCount)
    ensures h == Normalize(lib, RawHistogram(region, kernel, binCount))
  {
    var hist := new real[binCount](_ => 0.0);
    for i := 0 to region.rows
      invariant forall b :: 0 <= b < hist.Length ==> hist[b] == Weight(region, kernel, b, i)
    {
      AccumulateRow(region, kernel, hist, i);
    }
    assert hist[..] == RawHistogram(region, kernel, binCount);
    h := Normalize(lib, hist[..]);
  }

  /* ---------------------------------------------------------------------------
     The layout of the descriptor
     --------------------------------------------------------------------------- */

  /** Number of histograms: one per grid region, plus one per shifted region. */
  function RegionCount(width: int, height: int, inside: bool): (n: nat)
    requires width > 0 && height > 0
    ensures n >= width * height
  {
    MulMonotone(0, height - 1, width - 1);
    width * height + (if inside then (height - 1) * (width - 1) else 0)
  }

  /** Region (i, j) of the grid (i along the columns, j along the rows), or of the
      grid shifted by half a region. */
  datatype Region = Region(i: int, j: int, shifted: bool)

  /** The regions compute visits: i < width and j < height, or i < width - 1 and
      j < height - 1 for the shifted grid when inside partitioning is on. */
  predicate ValidRegion(width: int, height: int, inside: bool, r: Region)
  {
    if r.shifted then inside && 0 <= r.i < width - 1 && 0 <= r.j < height - 1
    else 0 <= r.i < width && 0 <= r.j < height
  }

  /** The histogram slot compute writes region r to: j * width + i for the grid,
      width * height + j * (width - 1) + i for the shifted grid. */
  function SlotOfRegion(width: int, height: int, r: Region): int
  {
    if r.shifted then width * height + r.j * (width - 1) + r.i else r.j * width + r.i
  }

  /** The region whose histogram lands in slot s. */
  function RegionOfSlot(width: int, height: int, s: int): Region
    requires width > 0 && height > 0
  {
    if s < width * height then Region(s % width, s / width, false)
    else if width == 1 then Region(0, 0, true)
    else Region((s - width * height) % (width - 1), (s - width * height) / (width - 1), true)
  }

  /** Every slot holds exactly one region's histogram: the slots of the regions
      compute visits are [0, RegionCount), one each. */
  lemma SlotRegionRoundTrip(width: int, height: int, inside: bool, s: int)
    requires width > 0 && height > 0 && 0 <= s < RegionCount(width, height, inside)
    ensures ValidRegion(width, height, inside, RegionOfSlot(width, height, s))
    ensures SlotOfRegion(width, height, RegionOfSlot(width, height, s)) == s
  {
    if s < width * height {
      SlotOf(s, height, width);
    } else {
      var t := s - width * height;
      assert inside && t < (height - 1) * (width - 1);
      if width == 1 {
        assert false;
      }
      SlotOf(t, height - 1, width - 1);
    }
  }

  lemma RegionSlotRoundTrip(width: int, height: int, inside: bool, r: Region)
    requires width > 0 && height > 0 && ValidRegion(width, height, inside, r)
    ensures 0 <= SlotOfRegion(width, height, r) < RegionCount(width, height, inside)
    ensures RegionOfSlot(width, height, SlotOfRegion(width, height, r)) == r
  {
    if r.shifted {
      ShiftedRoundTrip(width, height, r.i, r.j);
    } else {
      GridRoundTrip(width, height, r.i, r.j);
    }
  }

  lemma GridRoundTrip(width: int, height: int, i: int, j: int)
    requires 0 <= i < width && 0 <= j < height
    ensures var s := SlotOfRegion(width, height, Region(i, j, false));
            0 <= s < width * height && RegionOfSlot(width, height, s) == Region(i, j, false)
  {
    GridSlot(width, height, i, j);
  }

  lemma ShiftedRoundTrip(width: int, height: int, i: int, j: int)
    requires 0 <= i < width - 1 && 0 <= j < height - 1
    ensures var s := SlotOfRegion(width, height, Region(i, j, true));
            width * height <= s < RegionCount(width, height, true)
            && RegionOfSlot(width, height, s) == Region(i, j, true)
  {
    var wh, t := width * height, j * (width - 1) + i;
    ShiftedSlot(width, height, i, j);
    assert SlotOfRegion(width, height, Region(i, j, true)) == wh + t;
    assert RegionCount(width, height, true) == wh + (height - 1) * (width - 1);
    assert (wh + t) - wh == t;
  }

  lemma GridSlot(width: int, height: int, i: int, j: int)
    requires 0 <= i < width && 0 <= j < height
    ensures var s := j * width + i;
            0 <= s < width * height && s / width == j && s % width == i
  {
    IndexBound(j, i, height, width);
    assert height * width == width * height;
    DivModOf(j, i, width);
  }

  lemma ShiftedSlot(width: int, height: int, i: int, j: int)
    requires 0 <= i < width - 1 && 0 <= j < height - 1
    ensures var t := j * (width - 1) + i;
            0 <= t < (height - 1) * (width - 1) && t / (width - 1) == j && t % (width - 1) == i
  {
    IndexBound(j, i, height - 1, width - 1);
    DivModOf(j, i, width - 1);
  }

  /** Hence two regions compute visits never share a slot. */
  lemma SlotsDistinct(width: int, height: int, inside: bool, r: Region, r': Region)
    requires width > 0 && height > 0
    requires ValidRegion(width, height, inside, r) && ValidRegion(width, height, inside, r') && r != r'
    ensures SlotOfRegion(width, height, r) != SlotOfRegion(width, height, r')
  {
    RegionSlotRoundTrip(width, height, inside, r);
    RegionSlotRoundTrip(width, height, inside, r');
  }

  /** The top row of region r: j * rh, plus rh / 2 on the shifted grid. */
  function Top(r: Region, rh: int): int
  {
    r.j * rh + (if r.shifted then rh / 2 else 0)
  }

  /** The left column of region r: i * rw, plus rw / 2 on the shifted grid. */
  function Left(r: Region, rw: int): int
  {
    r.i * rw + (if r.shifted then rw / 2 else 0)
  }

  /** With regions of (cols / width) x (rows / height) cells, every region compute
      visits, shifted or not, lies inside the image. */
  lemma RegionInside(rows: nat, cols: nat, width: int, height: int, inside: bool, r: Region)
    requires width > 0 && height > 0 && ValidRegion(width, height, inside, r)
    ensures 0 <= Top(r, rows / height) && Top(r, rows / height) + rows / height <= rows
    ensures 0 <= Left(r, cols / width) && Left(r, cols / width) + cols / width <= cols
  {
    SpanInside(rows, height, r.j, r.shifted);
    SpanInside(cols, width, r.i, r.shifted);
  }

  /** One dimension of RegionInside: span idx of n / count cells, moved on by half
      a span when shifted, ends by n. */
  lemma SpanInside(n: nat, count: int, idx: int, shifted: bool)
    requires count > 0 && 0 <= idx && idx + (if shifted then 1 else 0) < count
    ensures var size := n / count;
            0 <= idx * size + (if shifted then size / 2 else 0)
            && idx * size + (if shifted then size / 2 else 0) + size <= n
  {
    var size := n / count;
    var k := idx + 1 + (if shifted then 1 else 0);
    MulMonotone(k, count, size);
    assert count * size <= n;
    assert k * size == idx * size + size + (if shifted then size else 0);
  }

  /** A row y of an unshifted region j satisfies y / rh == j, so two grid regions
      sharing a cell are the same region. */
  lemma GridRegionsDisjoint(rh: int, rw: int, r: Region, r': Region, y: int, x: int)
    requires rh > 0 && rw > 0 && !r.shifted && !r'.shifted && r.i >= 0 && r.j >= 0 && r'.i >= 0 && r'.j >= 0
    requires Top(r, rh) <= y < Top(r, rh) + rh && Top(r', rh) <= y < Top(r', rh) + rh
    requires Left(r, rw) <= x < Left(r, rw) + rw && Left(r', rw) <= x < Left(r', rw) + rw
    ensures r == r'
  {
    DivModOf(r.j, y - r.j * rh, rh);
    DivModOf(r'.j, y - r'.j * rh, rh);
    DivModOf(r.i, x - r.i * rw, rw);
    DivModOf(r'.i, x - r'.i * rw, rw);
  }

  /* ---------------------------------------------------------------------------
     The descriptor
     --------------------------------------------------------------------------- */

  /** The rows from height * rh on (and likewise the columns from width * rw on)
      fall in no region of the grid: integer division leaves them out. */
  lemma RemainderUncovered(rh: int, height: int, r: Region, y: int)
    requires rh > 0 && !r.shifted && 0 <= r.j < height && y >= height * rh
    ensures !(Top(r, rh) <= y < Top(r, rh) + rh)
  {
    MulMonotone(r.j + 1, height, rh);
  }

  /** The rows x cols cells of the image from (top, left) on, as image(roi) and
      image(rowRange, colRange).clone() give them. */
  function Crop(image: Mat<nat>, top: int, left: int, rows: nat, cols: nat): (c: Mat<nat>)
    ensures c.HasShape(rows, cols)
  {
    Tabulate(rows, cols, CropCell(image, top, left, rows, cols))
  }

  /** Cell (i, j) of the crop: image cell (top + i, left + j). */
  function CropCell(image: Mat<nat>, top: int, left: int, rows: nat, cols: nat): (int, int) -> nat
  {
    var data, width := image.data, image.cols;
    (i, j) =>
      var k := (top + i) * width + (left + j);
      if 0 <= k < |data| then data[k] else 0
  }

  lemma CropAt(image: Mat<nat>, top: int, left: int, rows: nat, cols: nat, i: int, j: int)
    requires image.IsPlane() && 0 <= top && top + rows <= image.rows && 0 <= left && left + cols <= image.cols
    requires 0 <= i < rows && 0 <= j < cols
    ensures Crop(image, top, left, rows, cols).At(i, j) == image.At(top + i, left + j)
  {
    TabulateAt(rows, cols, CropCell(image, top, left, rows, cols), i, j);
    IndexBound(top + i, left + j, image.rows, image.cols);
  }

  /** A crop of an image whose codes are below `bins` has codes below `bins`. */
  lemma CropCodes(image: Mat<nat>, top: int, left: int, rows: nat, cols: nat, bins: int)
    requires CodesBelow(image, bins)
    requires 0 <= top && top + rows <= image.rows && 0 <= left && left + cols <= image.cols
    ensures CodesBelow(Crop(image, top, left, rows, cols), bins)
  {
    forall i, j | 0 <= i < rows && 0 <= j < cols
      ensures Crop(image, top, left, rows, cols).At(i, j) < bins
    {
      CropAt(image, top, left, rows, cols, i, j);
    }
  }

  /** What compute fixes before its loops: the pattern image, the Gaussian kernel
      of the region shape, the grid and the bin count. */
  datatype Layout = Layout(image: Mat<nat>, kernel: Mat<real>, width: int, height: int, bins: nat, lib: Library)

  /** The layout of `compute(image, Size(width, height), bins, ...)` for a
      single-channel image: regions of (image.cols / width) x (image.rows / height)
      cells, weighted by the Gaussian kernel of that shape. */
  predicate IsLayout(l: Layout)
  {
    l.width > 0 && l.height > 0 && l.image.IsPlane()
    && l.kernel == GaussianKernel(l.lib, l.image.rows / l.height, l.image.cols / l.width)
  }

  /** Region r, of the kernel's shape, lies inside the image. */
  predicate Fits(l: Layout, r: Region)
  {
    var top, left := Top(r, l.kernel.rows), Left(r, l.kernel.cols);
    l.image.IsPlane() && l.kernel.IsPlane()
    && 0 <= top && top + l.kernel.rows <= l.image.rows && 0 <= left && left + l.kernel.cols <= l.image.cols
  }

  /** The histogram of region r: the codes of its crop binned under the kernel,
      then normalised (empty for a region outside the image, which compute never
      visits, see LayoutFits). */
  function RegionPart(l: Layout, r: Region): seq<real>
  {
    if Fits(l, r) then
      Normalize(l.lib, RawHistogram(Crop(l.image, Top(r, l.kernel.rows), Left(r, l.kernel.cols),
                                         l.kernel.rows, l.kernel.cols), l.kernel, l.bins))
    else []
  }

  /** Every region compute visits fits in the image. */
  lemma LayoutFits(l: Layout, inside: bool, r: Region)
    requires IsLayout(l) && ValidRegion(l.width, l.height, inside, r)
    ensures Fits(l, r)
    ensures |RegionPart(l, r)| == l.bins
  {
    RegionInside(l.image.rows, l.image.cols, l.width, l.height, inside, r);
  }

  /** The histogram of every region, as one function value. */
  function PartOf(l: Layout): Region -> seq<real>
  {
    r => RegionPart(l, r)
  }

  /** The parts in slot order: slot s holds the part of region RegionOfSlot(s). */
  function SlotParts(width: int, height: int, inside: bool, part: Region -> seq<real>): (parts: seq<seq<real>>)
    requires width > 0 && height > 0
    ensures |parts| == RegionCount(width, height, inside)
  {
    seq(RegionCount(width, height, inside), s => part(RegionOfSlot(width, height, s)))
  }

  /** Every region compute visits has a part of `bins` entries. */
  ghost predicate PartsWide(width: int, height: int, inside: bool, bins: nat, part: Region -> seq<real>)
  {
    forall r :: ValidRegion(width, height, inside, r) ==> |part(r)| == bins
  }

  /** The layout of `compute(image, Size(width, height), bins, ...)`. */
  function LayoutOf(image: Mat<nat>, width: int, height: int, bins: nat, lib: Library): (l: Layout)
    requires width > 0 && height > 0
    ensures image.IsPlane() ==> IsLayout(l)
  {
    Layout(image, GaussianKernel(lib, image.rows / height, image.cols / width), width, height, bins, lib)
  }

  /** The descriptor: the region histograms in slot order, concatenated. */
  function Descriptor(l: Layout, inside: bool): seq<real>
    requires l.width > 0 && l.height > 0
  {
    Concat(SlotParts(l.width, l.height, inside, PartOf(l)))
  }

  lemma LayoutPartsWide(l: Layout, inside: bool)
    requires IsLayout(l)
    ensures PartsWide(l.width, l.height, inside, l.bins, PartOf(l))
  {
    forall r | ValidRegion(l.width, l.height, inside, r)
      ensures |PartOf(l)(r)| == l.bins
    {
      LayoutFits(l, inside, r);
    }
  }

  /** The descriptor has bins entries per region compute visits. */
  lemma DescriptorLength(l: Layout, inside: bool)
    requires IsLayout(l)
    ensures |Descriptor(l, inside)| == RegionCount(l.width, l.height, inside) * l.bins
  {
    LayoutPartsWide(l, inside);
    SlotPartsWidth(l.width, l.height, inside, l.bins, PartOf(l));
    ConcatLength(SlotParts(l.width, l.height, inside, PartOf(l)), l.bins);
  }

  lemma SlotPartsWidth(width: int, height: int, inside: bool, bins: nat, part: Region -> seq<real>)
    requires width > 0 && height > 0 && PartsWide(width, height, inside, bins, part)
    ensures PartsOfWidth(SlotParts(width, height, inside, part), bins)
  {
    forall s | 0 <= s < |SlotParts(width, height, inside, part)|
      ensures |SlotParts(width, height, inside, part)[s]| == bins
    {
      SlotRegionRoundTrip(width, height, inside, s);
    }
  }

  /** Part b of region r sits at SlotOfRegion(r) * bins + b of the concatenation,
      which has RegionCount * bins entries. */
  lemma ConcatLayout(width: int, height: int, inside: bool, bins: nat, part: Region -> seq<real>, r: Region, b: int)
    requires width > 0 && height > 0 && PartsWide(width, height, inside, bins, part)
    requires ValidRegion(width, height, inside, r) && 0 <= b < bins
    ensures |Concat(SlotParts(width, height, inside, part))| == RegionCount(width, height, inside) * bins
    ensures 0 <= SlotOfRegion(width, height, r) * bins
    ensures SlotOfRegion(width, height, r) * bins + b < |Concat(SlotParts(width, height, inside, part))|
    ensures b < |part(r)|
    ensures Concat(SlotParts(width, height, inside, part))[SlotOfRegion(width, height, r) * bins + b] == part(r)[b]
  {
    var parts := SlotParts(width, height, inside, part);
    SlotPartsWidth(width, height, inside, bins, part);
    ConcatLength(parts, bins);
    RegionSlotRoundTrip(width, height, inside, r);
    ConcatAt(parts, bins, SlotOfRegion(width, height, r), b);
  }

  /** Where compute puts each region: bin b of region (i, j) sits at
      bins * (j * width + i) + b, and that of shifted region (i, j) at
      bins * (width * height + j * (width - 1) + i) + b; the descriptor has
      RegionCount * bins entries. */
  lemma DescriptorLayout(l: Layout, inside: bool, r: Region, b: int)
    requires IsLayout(l) && ValidRegion(l.width, l.height, inside, r) && 0 <= b < l.bins
    ensures |Descriptor(l, inside)| == RegionCount(l.width, l.height, inside) * l.bins
    ensures |RegionPart(l, r)| == l.bins
    ensures 0 <= SlotOfRegion(l.width, l.height, r) * l.bins
    ensures SlotOfRegion(l.width, l.height, r) * l.bins + b < |Descriptor(l, inside)|
    ensures Descriptor(l, inside)[SlotOfRegion(l.width, l.height, r) * l.bins + b] == RegionPart(l, r)[b]
  {
    LayoutPartsWide(l, inside);
    LayoutFits(l, inside, r);
    ConcatLayout(l.width, l.height, inside, l.bins, PartOf(l), r, b);
  }

  /** The slot of region r in the flat buffer holds its part. */
  ghost predicate Filled(a: seq<real>, width: int, height: int, bins: nat, part: Region -> seq<real>, r: Region)
  {
    var s := SlotOfRegion(width, height, r);
    0 <= s && s * bins + bins <= |a| && a[s * bins .. s * bins + bins] == part(r)
  }

  /** Reading one cell of a filled slot. */
  lemma FilledAt(a: seq<real>, width: int, height: int, bins: nat, part: Region -> seq<real>, r: Region, b: int)
    requires Filled(a, width, height, bins, part, r) && 0 <= b < bins
    ensures SlotOfRegion(width, height, r) * bins + b < |a|
    ensures a[SlotOfRegion(width, height, r) * bins + b] == part(r)[b]
  {
    var s := SlotOfRegion(width, height, r);
    assert a[s * bins .. s * bins + bins][b] == a[s * bins + b];
  }

  /** Cell s * bins + b of a buffer in which every region compute visits is
      filled holds entry b of slot part s. */
  lemma FilledCell(a: seq<real>, width: int, height: int, inside: bool, bins: nat, part: Region -> seq<real>,
                   s: int, b: int)
    requires width > 0 && height > 0 && PartsWide(width, height, inside, bins, part)
    requires forall r :: ValidRegion(width, height, inside, r) ==> Filled(a, width, height, bins, part, r)
    requires 0 <= s < RegionCount(width, height, inside) && 0 <= b < bins
    ensures b < |part(RegionOfSlot(width, height, s))|
    ensures s * bins + b < |a| && a[s * bins + b] == part(RegionOfSlot(width, height, s))[b]
  {
    SlotRegionRoundTrip(width, height, inside, s);
    FilledAt(a, width, height, bins, part, RegionOfSlot(width, height, s), b);
  }

  lemma FilledCells(a: seq<real>, width: int, height: int, inside: bool, bins: nat, part: Region -> seq<real>)
    requires width > 0 && height > 0 && PartsWide(width, height, inside, bins, part)
    requires forall r :: ValidRegion(width, height, inside, r) ==> Filled(a, width, height, bins, part, r)
    ensures CellsMatch(a, SlotParts(width, height, inside, part), bins)
  {
    var parts := SlotParts(width, height, inside, part);
    forall s, b | 0 <= s < |parts| && 0 <= b < bins
      ensures CellMatches(a, parts, bins, s, b)
    {
      FilledCell(a, width, height, inside, bins, part, s, b);
      assert parts[s] == part(RegionOfSlot(width, height, s));
    }
  }

  /** A buffer in which every region compute visits is filled is the
      concatenation of the parts in slot order. */
  lemma FilledMakesConcat(a: seq<real>, width: int, height: int, inside: bool, bins: nat, part: Region -> seq<real>)
    requires width > 0 && height > 0 && bins > 0 && PartsWide(width, height, inside, bins, part)
    requires |a| == RegionCount(width, height, inside) * bins
    requires forall r :: ValidRegion(width, height, inside, r) ==> Filled(a, width, height, bins, part, r)
    ensures a == Concat(SlotParts(width, height, inside, part))
  {
    SlotPartsWidth(width, height, inside, bins, part);
    FilledCells(a, width, height, inside, bins, part);
    assert |a| == |SlotParts(width, height, inside, part)| * bins;
    SlotsMakeConcat(a, SlotParts(width, height, inside, part), bins);
  }

  /** The loop body of compute for region r: crop, histogram, copy into the slot.
      Every other region's slot keeps what it held. */
  method FillRegion(out: array<real>, l: Layout, inside: bool, r: Region)
    requires IsLayout(l) && ValidRegion(l.width, l.height, inside, r) && CodesBelow(l.image, l.bins)
    requires out.Length == RegionCount(l.width, l.height, inside) * l.bins
    modifies out
    ensures Filled(out[..], l.width, l.height, l.bins, PartOf(l), r)
    ensures forall r' :: ValidRegion(l.width, l.height, inside, r') && r' != r
                         && Filled(old(out[..]), l.width, l.height, l.bins, PartOf(l), r') ==>
              Filled(out[..], l.width, l.height, l.bins, PartOf(l), r')
  {
    LayoutFits(l, inside, r);
    var top, left := Top(r, l.kernel.rows), Left(r, l.kernel.cols);
    CropCodes(l.image, top, left, l.kernel.rows, l.kernel.cols, l.bins);
    var region := Crop(l.image, top, left, l.kernel.rows, l.kernel.cols);
    var h := RegionHistogram(region, l.bins, l.kernel, l.lib);
    var s := SlotOfRegion(l.width, l.height, r);
    RegionSlotRoundTrip(l.width, l.height, inside, r);
    MulMonotone(s + 1, RegionCount(l.width, l.height, inside), l.bins);
    ghost var before := out[..];
    WriteSlot(out, s, l.bins, h);
    SlotWritten(before, out[..], s, l.bins, h);
    forall r' | ValidRegion(l.width, l.height, inside, r') && r' != r
                && Filled(before, l.width, l.height, l.bins, PartOf(l), r')
      ensures Filled(out[..], l.width, l.height, l.bins, PartOf(l), r')
    {
      SlotsDistinct(l.width, l.height, inside, r, r');
      SlotKept(before, out[..], s, SlotOfRegion(l.width, l.height, r'), l.bins, h);
    }
  }

  /** Region r comes before region (i, j) of the grid `shifted` in the order
      compute visits them: column by column, each column top to bottom, the
      whole grid before the shifted grid. */
  predicate Before(r: Region, shifted: bool, i: int, j: int)
  {
    if r.shifted == shifted then r.i < i || (r.i == i && r.j < j)
    else shifted
  }

  /** Every region compute visits before (i, j) of the grid `shifted` is filled. */
  ghost predicate FilledBefore(a: seq<real>, l: Layout, inside: bool, shifted: bool, i: int, j: int)
  {
    forall r :: ValidRegion(l.width, l.height, inside, r) && Before(r, shifted, i, j) ==>
      Filled(a, l.width, l.height, l.bins, PartOf(l), r)
  }

  /** The inner loop of compute: column i of the grid `shifted`, which has
      count regions. */
  method FillColumn(out: array<real>, l: Layout, inside: bool, shifted: bool, i: int, count: int)
    requires IsLayout(l) && CodesBelow(l.image, l.bins)
    requires out.Length == RegionCount(l.width, l.height, inside) * l.bins
    requires shifted ==> inside
    requires 0 <= i < (if shifted then l.width - 1 else l.width)
    requires count == (if shifted then l.height - 1 else l.height)
    requires FilledBefore(out[..], l, inside, shifted, i, 0)
    modifies out
    ensures FilledBefore(out[..], l, inside, shifted, i + 1, 0)
  {
    for j := 0 to count
      invariant FilledBefore(out[..], l, inside, shifted, i, j)
    {
      ghost var before := out[..];
      FillRegion(out, l, inside, Region(i, j, shifted));
      forall r | ValidRegion(l.width, l.height, inside, r) && Before(r, shifted, i, j + 1)
        ensures Filled(out[..], l.width, l.height, l.bins, PartOf(l), r)
      {
        if r != Region(i, j, shifted) {
          assert Before(r, shifted, i, j);
        }
      }
    }
    forall r | ValidRegion(l.width, l.height, inside, r) && Before(r, shifted, i + 1, 0)
      ensures Filled(out[..], l.width, l.height, l.bins, PartOf(l), r)
    {
      assert Before(r, shifted, i, count);
    }
  }

  /** HistogramBuilder: the grid, the bin count and whether the shifted grid is
      added. */
  class HistogramBuilder {
    var gridWidth: int
    var gridHeight: int
    var binCount: int
    var inside: bool

    /** What the setters assert. */
    ghost predicate Valid()
      reads this
    {
      gridWidth > 0 && gridHeight > 0 && binCount > 1
    }

    /** The object before the constructor's setters run. */
    constructor Blank()
      ensures gridWidth == 0 && gridHeight == 0 && binCount == 0 && !inside
    {
      gridWidth := 0;
      gridHeight := 0;
      binCount := 0;
      inside := false;
    }

    /** setGridSize: requires a positive width and height. */
    method SetGridSize(width: int, height: int) returns (ok: bool)
      modifies this
      ensures ok == (height > 0 && width > 0)
      ensures gridWidth == (if ok then width else old(gridWidth))
      ensures gridHeight == (if ok then height else old(gridHeight))
      ensures binCount == old(binCount) && inside == old(inside)
    {
      ok := height > 0 && width > 0;
      if ok {
        gridWidth, gridHeight := width, height;
      }
    }

    /** setBinCount: requires at least two bins. */
    method SetBinCount(bins: int) returns (ok: bool)
      modifies this
      ensures ok == (bins > 1)
      ensures binCount == (if ok then bins else old(binCount))
      ensures gridWidth == old(gridWidth) && gridHeight == old(gridHeight) && inside == old(inside)
    {
      ok := bins > 1;
      if ok {
        binCount := bins;
      }
    }

    method SetApplyInsidePartitioning(applyInside: bool)
      modifies this
      ensures inside == applyInside
      ensures gridWidth == old(gridWidth) && gridHeight == old(gridHeight) && binCount == old(binCount)
    {
      inside := applyInside;
    }

    /** The constructor: the three setters in order. */
    static method Create(width: int, height: int, bins: int, applyInside: bool) returns (r: Result<HistogramBuilder>)
      ensures r.Ok? <==> width > 0 && height > 0 && bins > 1
      ensures r.Err? ==> r.error == InvalidConfiguration
      ensures r.Ok? ==> fresh(r.value) && r.value.Valid()
                        && r.value.gridWidth == width && r.value.gridHeight == height
                        && r.value.binCount == bins && r.value.inside == applyInside
    {
      var h := new HistogramBuilder.Blank();
      var ok := h.SetGridSize(width, height);
      if !ok {
        return Err(InvalidConfiguration);
      }
      ok := h.SetBinCount(bins);
      if !ok {
        return Err(InvalidConfiguration);
      }
      h.SetApplyInsidePartitioning(applyInside);
      r := Ok(h);
    }

    /** histogramLength: bins per region of the grid and, with inside
        partitioning, per region of the shifted grid. */
    function HistogramLength(): (n: int)
      reads this
      ensures Valid() ==> n == RegionCount(gridWidth, gridHeight, inside) * binCount
    {
      var length := gridWidth * gridHeight * binCount;
      if inside then
        length + (gridHeight - 1) * (gridWidth - 1) * binCount
      else length
    }

    /** build, that is compute with the builder's own grid, bin count and
        partitioning: every region of the grid (and of the shifted grid) is
        cropped, binned under the Gaussian kernel of the region shape and copied
        into its slot. It fails on an empty image and when a region would have
        no cells, where the kernel resize to an empty size fails. */
    method Build(image: Mat<nat>, lib: Library) returns (r: Result<Mat<real>>)
      requires Valid() && CodesBelow(image, binCount)
      ensures r.Ok? <==> image.rows >= gridHeight && image.cols >= gridWidth
      ensures r.Err? ==> r.error == InvalidInput
      ensures r.Ok? ==> r.value == RowOf(Descriptor(LayoutOf(image, gridWidth, gridHeight, binCount, lib), inside))
      ensures r.Ok? ==> r.value.cols == HistogramLength()
    {
      if image.IsEmpty() || image.rows == 0 || image.cols == 0 {
        return Err(InvalidInput);
      }
      var rw, rh := image.cols / gridWidth, image.rows / gridHeight;
      if rw == 0 || rh == 0 {
        return Err(InvalidInput);
      }
      var l := Layout(image, GaussianKernel(lib, rh, rw), gridWidth, gridHeight, binCount, lib);
      assert l == LayoutOf(image, gridWidth, gridHeight, binCount, lib);
      var out := new real[HistogramLength()];
      for i := 0 to gridWidth
        invariant FilledBefore(out[..], l, inside, false, i, 0)
      {
        FillColumn(out, l, inside, false, i, gridHeight);
      }
      if inside {
        assert FilledBefore(out[..], l, inside, true, 0, 0) by {
          forall r | ValidRegion(gridWidth, gridHeight, inside, r) && Before(r, true, 0, 0)
            ensures Filled(out[..], gridWidth, gridHeight, binCount, PartOf(l), r)
          {
            assert Before(r, false, gridWidth, 0);
          }
        }
        for i := 0 to gridWidth - 1
          invariant FilledBefore(out[..], l, inside, true, i, 0)
        {
          FillColumn(out, l, inside, true, i, gridHeight - 1);
        }
      }
      forall r | ValidRegion(gridWidth, gridHeight, inside, r)
        ensures Filled(out[..], gridWidth, gridHeight, binCount, PartOf(l), r)
      {
        if inside {
          assert Before(r, true, gridWidth - 1, 0);
        } else {
          assert Before(r, false, gridWidth, 0);
        }
      }
      LayoutPartsWide(l, inside);
      FilledMakesConcat(out[..], gridWidth, gridHeight, inside, binCount, PartOf(l));
      r := Ok(RowOf(out[..]));
    }
  }
}
