/** PALM: the pipeline that turns an image into a descriptor (the pattern image
    of the extractor, then the region histograms of the builder), its
    configuration, and the L1 distance between two descriptors. */
module Pipeline {
  import opened Common
  import opened PatternImages
  import opened Histograms

  /** PALMConfig: patch, grid (the grid is gridSize x gridSize), step, moment
      order, filter type and inside partitioning. */
  datatype PalmConfig = PalmConfig(patchSize: int, gridSize: int, stepSize: int, momentOrder: int,
                                   filterType: FilterType, applyInsidePartitioning: bool)

  /** The values the PALMConfig constructor sets. */
  const DefaultConfig: PalmConfig := PalmConfig(32, 5, 8, 2, Approximated, true)

  /** What PatternImageExtractor::create accepts. */
  predicate ExtractorOk(c: PalmConfig)
  {
    ConfigOk(c.filterType, c.patchSize, c.stepSize, c.momentOrder)
  }

  /** What initialize accepts: the extractor, then a positive grid. */
  predicate InitOk(c: PalmConfig)
  {
    ExtractorOk(c) && c.gridSize > 0
  }

  /** An extractor as create leaves it: valid, 2^order filters, and for the
      regular variant filters that cover the patch. */
  ghost predicate ExtractorReady(e: PatternImageExtractor)
    reads e
  {
    e.Valid() && |e.filters| == Pow2(e.momentOrder)
    && (e.filterType == Regular ==> forall k :: 0 <= k < |e.filters| ==> Covers(e.filters[k], e.patchSize))
  }

  /** The default configuration is accepted; its 2 + 2 Zernike filters give
      2^4 = 16 bins, and its 5 x 5 grid plus the 4 x 4 shifted grid give a
      descriptor of 41 * 16 = 656 entries. */
  lemma DefaultSizes(lib: Library)
    ensures InitOk(DefaultConfig)
    ensures |FilterBank(Approximated, 32, 2, lib)| == 4 && Pow2(4) == 16
    ensures RegionCount(5, 5, true) * 16 == 656
  {
    FilterBankSize(Approximated, 32, 2, lib);
    assert Pow2(2) == 4;
    assert Pow2(4) == 16;
  }

  /** Sum over k of |a[k] - b[k]|, cv::norm(a, b, NORM_L1). */
  function L1Distance(a: seq<real>, b: seq<real>): (d: real)
    requires |a| == |b|
    ensures d >= 0.0
    ensures |a| == 0 ==> d == 0.0
  {
    if |a| == 0 then 0.0
    else L1Distance(a[..|a| - 1], b[..|b| - 1]) + AbsReal(a[|a| - 1] - b[|b| - 1])
  }

  lemma {:induction false} L1Symmetric(a: seq<real>, b: seq<real>)
    requires |a| == |b|
    ensures L1Distance(a, b) == L1Distance(b, a)
  {
    if |a| > 0 {
      L1Symmetric(a[..|a| - 1], b[..|b| - 1]);
    }
  }

  /** The distance is zero exactly between equal descriptors. */
  lemma {:induction false} L1ZeroIff(a: seq<real>, b: seq<real>)
    requires |a| == |b|
    ensures L1Distance(a, b) == 0.0 <==> a == b
  {
    if |a| > 0 {
      var n := |a| - 1;
      L1ZeroIff(a[..n], b[..n]);
      if L1Distance(a, b) == 0.0 {
        assert a[..n] == b[..n] && a[n] == b[n];
        assert a == a[..n] + [a[n]] && b == b[..n] + [b[n]];
      }
    }
  }

  lemma {:induction false} L1Triangle(a: seq<real>, b: seq<real>, c: seq<real>)
    requires |a| == |b| == |c|
    ensures L1Distance(a, c) <= L1Distance(a, b) + L1Distance(b, c)
  {
    if |a| > 0 {
      var n := |a| - 1;
      L1Triangle(a[..n], b[..n], c[..n]);
    }
  }

  /** PALM::distance: single-row descriptors of the same positive length (and,
      as cv::norm demands, the same channel count). */
  function Distance(desc1: Mat<real>, desc2: Mat<real>): (r: Result<real>)
    requires desc1.WellFormed() && desc2.WellFormed()
    ensures r.Ok? <==> desc1.cols > 0 && desc1.rows == 1 && desc2.cols > 0 && desc2.rows == 1
                       && desc1.cols == desc2.cols && desc1.channels == desc2.channels
    ensures r.Err? ==> r.error == InvalidInput
    ensures r.Ok? ==> r.value >= 0.0 && |desc1.data| == |desc2.data| && r.value == L1Distance(desc1.data, desc2.data)
  {
    if desc1.cols > 0 && desc1.rows == 1 && desc2.cols > 0 && desc2.rows == 1 && desc1.cols == desc2.cols
       && desc1.channels == desc2.channels
    then Ok(L1Distance(desc1.data, desc2.data))
    else Err(InvalidInput)
  }

  /** The distance is symmetric and vanishes exactly on equal descriptors. */
  lemma DistanceProperties(desc1: Mat<real>, desc2: Mat<real>)
    requires desc1.WellFormed() && desc2.WellFormed() && Distance(desc1, desc2).Ok?
    ensures Distance(desc2, desc1) == Distance(desc1, desc2)
    ensures Distance(desc1, desc2).value == 0.0 <==> desc1 == desc2
  {
    L1Symmetric(desc1.data, desc2.data);
    L1ZeroIff(desc1.data, desc2.data);
  }

  /** The values compute depends on: the extractor's filter type, patch, step,
      order and filters, and the builder's grid, bin count and partitioning. */
  datatype Setup = Setup(filterType: FilterType, patchSize: int, stepSize: int, momentOrder: int,
                         filters: seq<Mat<real>>, width: int, height: int, bins: int, inside: bool)

  /** A setup compute can run on: what initialize produces, with a positive
      stride, and a bin for every code the filters can give. */
  predicate SetupReady(s: Setup)
  {
    s.patchSize > 3 && s.stepSize > 0 && 0 < s.momentOrder < 4 && |s.filters| == Pow2(s.momentOrder)
    && (s.filterType == Regular ==> forall k :: 0 <= k < |s.filters| ==> Covers(s.filters[k], s.patchSize))
    && s.width > 0 && s.height > 0 && Pow2(|s.filters|) <= s.bins
    && StepFor(s.filterType, s.patchSize, s.stepSize) > 0
  }

  /** The pattern image extract makes of `image`, when it succeeds. */
  function PatternOf(s: Setup, image: Mat<real>, lib: Library): (r: Result<Mat<nat>>)
    requires SetupReady(s) && image.WellFormed()
    ensures r.Err? ==> r.error == InvalidInput
    ensures r.Ok? ==> CodesBelow(r.value, s.bins)
  {
    if !ImageOk(image) then Err(InvalidInput)
    else
      var input, patch, step := InputFor(s.filterType, s.patchSize, image, lib), PatchFor(s.filterType, s.patchSize),
                                StepFor(s.filterType, s.patchSize, s.stepSize);
      if ComputeOk(input, patch, step) then
        var m := PatternImage(s.filterType, s.momentOrder, input, patch, step, s.filters);
        PatternCodes(m, s, input, patch, step);
        Ok(m)
      else Err(InvalidInput)
  }

  /** The codes of a pattern image lie below the bin count. */
  lemma PatternCodes(m: Mat<nat>, s: Setup, input: Mat<real>, patch: nat, step: int)
    requires SetupReady(s) && step > 0 && CodesDefined(s.filterType, s.filters, patch)
    requires IsPatternImage(m, s.filterType, s.momentOrder, input, patch, step, s.filters)
    ensures CodesBelow(m, s.bins)
  {
    forall i, j | 0 <= i < m.rows && 0 <= j < m.cols
      ensures m.At(i, j) < s.bins
    {
      PatternImageBound(m, s.filterType, s.momentOrder, input, patch, step, s.filters, i, j);
    }
  }

  /** The descriptor of `image`: the builder's descriptor of its pattern image,
      which needs at least one cell per region. */
  function DescriptorOf(s: Setup, image: Mat<real>, lib: Library): (r: Result<seq<real>>)
    requires SetupReady(s) && image.WellFormed()
    ensures r.Ok? ==> PatternOf(s, image, lib).Ok? && |r.value| == RegionCount(s.width, s.height, s.inside) * s.bins
    ensures r.Err? ==> r.error == InvalidInput
  {
    var p := PatternOf(s, image, lib);
    if p.Ok? && p.value.rows >= s.height && p.value.cols >= s.width then
      var l := LayoutOf(p.value, s.width, s.height, s.bins, lib);
      DescriptorLength(l, s.inside);
      Ok(Descriptor(l, s.inside))
    else Err(InvalidInput)
  }

  /** The descriptors of images, in order, when every image has one. */
  function DescriptorsOf(s: Setup, images: seq<Mat<real>>, lib: Library): (r: Result<seq<seq<real>>>)
    requires SetupReady(s) && forall i :: 0 <= i < |images| ==> images[i].WellFormed()
    ensures r.Err? ==> r.error == InvalidInput
    ensures r.Ok? ==> |r.value| == |images|
  {
    if forall i :: 0 <= i < |images| ==> DescriptorOf(s, images[i], lib).Ok? then
      Ok(seq(|images|, i requires 0 <= i < |images| => DescriptorOf(s, images[i], lib).value))
    else Err(InvalidInput)
  }

  class Palm {
    var config: PalmConfig
    var extractor: PatternImageExtractor?
    var builder: HistogramBuilder?
    var lastPatternImage: Mat<nat>

    /** What the objects the pipeline owns keep. */
    ghost predicate Valid()
      reads this, extractor, builder
    {
      (extractor != null ==> ExtractorReady(extractor)) && (builder != null ==> builder.Valid())
    }

    /** isInitialized: both objects exist. */
    predicate IsInitialized()
      reads this
    {
      builder != null && extractor != null
    }

    /** The builder has a bin for every code of the extractor's filters. */
    ghost predicate Coherent()
      reads this, extractor, builder
    {
      IsInitialized() && Pow2(|extractor.filters|) <= builder.binCount
    }

    /** What compute needs of an initialised pipeline: coherent objects and a
        positive stride (see ZeroStrideConfiguration). */
    ghost predicate Ready()
      reads this, extractor, builder
      requires Valid()
    {
      Coherent() && extractor.ExtractStep() > 0
    }

    /** The objects initialize builds from configuration c: an extractor with c's
        filter type, patch, step, order and filter bank, and a builder of
        c.gridSize x c.gridSize regions, c's partitioning and 2^|filters| bins. */
    ghost predicate BuiltFrom(c: PalmConfig, lib: Library)
      reads this, extractor, builder
    {
      InitOk(c) && extractor != null && builder != null
      && extractor.filterType == c.filterType && extractor.patchSize == c.patchSize
      && extractor.stepSize == c.stepSize && extractor.momentOrder == c.momentOrder
      && extractor.filters == FilterBank(c.filterType, c.patchSize, c.momentOrder, lib)
      && builder.gridWidth == c.gridSize && builder.gridHeight == c.gridSize
      && builder.inside == c.applyInsidePartitioning && builder.binCount == Pow2(|extractor.filters|)
    }

    /** The object before setConfig runs. */
    constructor Blank(config: PalmConfig)
      ensures this.config == config && extractor == null && builder == null && lastPatternImage.IsEmpty()
      ensures Valid()
    {
      this.config := config;
      extractor := null;
      builder := null;
      lastPatternImage := EmptyMat();
    }

    /** initialize: a new extractor from the configuration, then a new builder of
        gridSize x gridSize regions and 2^|filters| bins. When the builder is
        refused, the new extractor stays in place beside the old builder. */
    method Initialize(lib: Library) returns (r: Outcome)
      requires Valid()
      modifies this
      ensures Valid()
      ensures config == old(config) && lastPatternImage == old(lastPatternImage)
      ensures r.Pass? <==> InitOk(config)
      ensures r.Fail? ==> r.error == InvalidConfiguration
      ensures !ExtractorOk(config) ==> extractor == old(extractor) && builder == old(builder)
      ensures ExtractorOk(config) ==>
                extractor != null && fresh(extractor)
                && extractor.filterType == config.filterType && extractor.patchSize == config.patchSize
                && extractor.stepSize == config.stepSize && extractor.momentOrder == config.momentOrder
                && extractor.filters == FilterBank(config.filterType, config.patchSize, config.momentOrder, lib)
      ensures r.Fail? ==> builder == old(builder)
      ensures r.Pass? ==> builder != null && fresh(builder)
                          && builder.gridWidth == config.gridSize && builder.gridHeight == config.gridSize
                          && builder.inside == config.applyInsidePartitioning
                          && builder.binCount == Pow2(|extractor.filters|) && Coherent()
    {
      var e := PatternImageExtractor.Create(config.filterType, config.patchSize, config.stepSize,
                                            config.momentOrder, lib);
      if e.Err? {
        return Fail(InvalidConfiguration);
      }
      FilterBankSize(config.filterType, config.patchSize, config.momentOrder, lib);
      FilterBankShapes(config.filterType, config.patchSize, config.momentOrder, lib);
      extractor := e.value;
      var binCount := Pow2(|extractor.filters|);
      var b := HistogramBuilder.Create(config.gridSize, config.gridSize, binCount, config.applyInsidePartitioning);
      if b.Err? {
        return Fail(InvalidConfiguration);
      }
      builder := b.value;
      r := Pass;
    }

    /** setConfig: store the configuration, and initialise only when asked. The
        source's initialize argument defaults to true; here it is always passed. */
    method SetConfig(c: PalmConfig, initialize: bool, lib: Library) returns (r: Outcome)
      requires Valid()
      modifies this
      ensures Valid()
      ensures config == c && lastPatternImage == old(lastPatternImage)
      ensures !initialize ==> r == Pass && extractor == old(extractor) && builder == old(builder)
      ensures initialize ==> (r.Pass? <==> InitOk(c))
      ensures r.Fail? ==> r.error == InvalidConfiguration
      ensures initialize && r.Pass? ==> fresh(extractor) && fresh(builder) && BuiltFrom(c, lib) && Coherent()
      ensures initialize && !ExtractorOk(c) ==> extractor == old(extractor) && builder == old(builder)
      ensures initialize && ExtractorOk(c) && r.Fail? ==>
                extractor != null && fresh(extractor) && builder == old(builder)
                && extractor.filterType == c.filterType && extractor.patchSize == c.patchSize
                && extractor.stepSize == c.stepSize && extractor.momentOrder == c.momentOrder
                && extractor.filters == FilterBank(c.filterType, c.patchSize, c.momentOrder, lib)
    {
      config := c;
      r := Pass;
      if initialize {
        r := Initialize(lib);
      }
    }

    /** The two constructors: setConfig on the given (or the default)
        configuration. A failed initialisation throws, so no object results. The
        source's initialize argument defaults to true; here it is always passed. */
    static method Create(c: PalmConfig, initialize: bool, lib: Library) returns (r: Result<Palm>)
      ensures r.Ok? <==> !initialize || InitOk(c)
      ensures r.Err? ==> r.error == InvalidConfiguration
      ensures r.Ok? ==> fresh(r.value) && r.value.Valid() && r.value.config == c
                        && r.value.IsInitialized() == initialize && r.value.lastPatternImage.IsEmpty()
      ensures r.Ok? && initialize ==> r.value.BuiltFrom(c, lib) && r.value.Coherent()
    {
      var p := new Palm.Blank(c);
      var o := p.SetConfig(c, initialize, lib);
      if o.Fail? {
        return Err(o.error);
      }
      r := Ok(p);
    }

    /** PALM(bool initialize): the constructor on the default configuration, which
        initialize accepts; an initialised default object has the 4 filters of
        order 2, 16 bins and a descriptor of 656 entries. The source's initialize
        argument defaults to true, so PALM() is CreateDefault(true, lib). */
    static method CreateDefault(initialize: bool, lib: Library) returns (r: Result<Palm>)
      ensures r.Ok?
      ensures fresh(r.value) && r.value.Valid() && r.value.config == DefaultConfig
      ensures r.value.IsInitialized() == initialize && r.value.lastPatternImage.IsEmpty()
      ensures initialize ==> r.value.BuiltFrom(DefaultConfig, lib) && |r.value.extractor.filters| == 4
                             && r.value.builder.binCount == 16 && r.value.DescriptorSize() == Ok(656)
      ensures !initialize ==> r.value.DescriptorSize() == Err(NotInitialized)
    {
      DefaultSizes(lib);
      r := Create(DefaultConfig, initialize, lib);
    }

    /** descriptorSize: the builder's histogram length. */
    function DescriptorSize(): (r: Result<int>)
      reads this, builder
      requires builder != null ==> builder.Valid()
      ensures r.Ok? <==> IsInitialized()
      ensures r.Err? ==> r.error == NotInitialized
      ensures r.Ok? ==> r.value == RegionCount(builder.gridWidth, builder.gridHeight, builder.inside) * builder.binCount
    {
      if IsInitialized() then Ok(builder.HistogramLength()) else Err(NotInitialized)
    }

    /** lastPatternImage: fails while no image has been extracted. */
    function LastPatternImage(): (r: Result<Mat<nat>>)
      reads this
      ensures r.Ok? <==> !lastPatternImage.IsEmpty()
      ensures r.Ok? ==> r.value == lastPatternImage
      ensures r.Err? ==> r.error == NotInitialized
    {
      if lastPatternImage.IsEmpty() then Err(NotInitialized) else Ok(lastPatternImage)
    }

    /** The configuration of the two objects, as a value. */
    function Snapshot(): (s: Setup)
      reads this, extractor, builder
      requires IsInitialized()
      ensures s.bins == builder.binCount && s.width == builder.gridWidth && s.height == builder.gridHeight
      ensures s.inside == builder.inside
    {
      Setup(extractor.filterType, extractor.patchSize, extractor.stepSize, extractor.momentOrder, extractor.filters,
            builder.gridWidth, builder.gridHeight, builder.binCount, builder.inside)
    }

    lemma SnapshotReady()
      requires Valid() && IsInitialized() && Ready()
      ensures SetupReady(Snapshot())
    {
    }

    /** compute(image): extract the pattern image and keep it, then build its
        descriptor. A failed extraction leaves the last pattern image alone; a
        failed build comes after it was replaced. */
    method Compute(image: Mat<real>, lib: Library) returns (r: Result<Mat<real>>)
      requires Valid() && image.WellFormed()
      requires IsInitialized() ==> Ready()
      modifies this
      ensures Valid() && config == old(config) && extractor == old(extractor) && builder == old(builder)
      ensures !IsInitialized() ==> r == Err(NotInitialized) && lastPatternImage == old(lastPatternImage)
      ensures IsInitialized() ==>
                SetupReady(Snapshot())
                && (r.Ok? <==> DescriptorOf(Snapshot(), image, lib).Ok?)
                && (r.Err? ==> r.error == InvalidInput)
                && (r.Ok? ==> r.value == RowOf(DescriptorOf(Snapshot(), image, lib).value))
                && (PatternOf(Snapshot(), image, lib).Ok? ==> lastPatternImage == PatternOf(Snapshot(), image, lib).value)
                && (PatternOf(Snapshot(), image, lib).Err? ==> lastPatternImage == old(lastPatternImage))
      ensures r.Ok? ==> LastPatternImage() == PatternOf(Snapshot(), image, lib)
    {
      if !IsInitialized() {
        return Err(NotInitialized);
      }
      ghost var s := Snapshot();
      var patterns := extractor.Extract(image, lib);
      if patterns.Err? {
        return Err(InvalidInput);
      }
      var input, patch, step := extractor.ExtractInput(image, lib), extractor.ExtractPatch(), extractor.ExtractStep();
      PatternImageUnique(patterns.value, extractor.filterType, extractor.momentOrder, input, patch, step,
                         extractor.filters);
      assert patterns == PatternOf(s, image, lib);
      lastPatternImage := patterns.value;
      var desc := builder.Build(patterns.value, lib);
      if desc.Err? {
        return Err(InvalidInput);
      }
      MulMonotone(1, patterns.value.rows, patterns.value.cols);
      r := desc;
    }

    /** compute(images, rowStack): the descriptors of the images one after the
        other, descriptor i in row i of a |images| x size matrix, or at offset
        i * size of a single row; both hold the concatenation. The first image
        that fails stops the batch. The source's rowStack argument defaults to
        false (one row); here it is always passed. */
    method ComputeAll(images: seq<Mat<real>>, rowStack: bool, lib: Library) returns (r: Result<Mat<real>>)
      requires Valid() && forall i :: 0 <= i < |images| ==> images[i].WellFormed()
      requires IsInitialized() ==> Ready()
      modifies this
      ensures Valid() && config == old(config) && extractor == old(extractor) && builder == old(builder)
      ensures !IsInitialized() ==> r == Err(NotInitialized)
      ensures IsInitialized() ==> SetupReady(Snapshot())
      ensures IsInitialized() && |images| == 0 ==> r == Err(InvalidInput)
      ensures IsInitialized() && |images| > 0 ==>
                (r.Ok? <==> DescriptorsOf(Snapshot(), images, lib).Ok?) && (r.Err? ==> r.error == InvalidInput)
      ensures r.Ok? ==>
                IsInitialized() && DescriptorsOf(Snapshot(), images, lib).Ok? &&
                var size, descs := builder.HistogramLength(), DescriptorsOf(Snapshot(), images, lib).value;
                |Concat(descs)| == |images| * size &&
                r.value == if rowStack then Mat(|images|, size, 1, Concat(descs)) else RowOf(Concat(descs))
      ensures r.Ok? ==> IsInitialized() && |images| > 0 && PatternOf(Snapshot(), images[|images| - 1], lib).Ok?
                        && lastPatternImage == PatternOf(Snapshot(), images[|images| - 1], lib).value
      ensures !IsInitialized() || |images| == 0 ==> lastPatternImage == old(lastPatternImage)
    {
      if !IsInitialized() {
        return Err(NotInitialized);
      }
      ghost var s := Snapshot();
      if |images| == 0 {
        return Err(InvalidInput);
      }
      var size := DescriptorSize().value;
      var out := new real[|images| * size];
      var ok := FillDescriptors(images, size, out, lib);
      if !ok {
        return Err(InvalidInput);
      }
      if rowStack {
        r := Ok(Mat(|images|, size, 1, out[..]));
      } else {
        r := Ok(RowOf(out[..]));
      }
    }

    /** compute(image) as the batch uses it: the entries of the descriptor. */
    method ComputeEntries(image: Mat<real>, lib: Library) returns (d: Result<seq<real>>)
      requires Valid() && IsInitialized() && Ready() && image.WellFormed()
      modifies this
      ensures Valid() && config == old(config) && extractor == old(extractor) && builder == old(builder)
      ensures IsInitialized() && Snapshot() == old(Snapshot()) && SetupReady(Snapshot())
      ensures d == DescriptorOf(Snapshot(), image, lib)
      ensures PatternOf(Snapshot(), image, lib).Ok? ==> lastPatternImage == PatternOf(Snapshot(), image, lib).value
      ensures PatternOf(Snapshot(), image, lib).Err? ==> lastPatternImage == old(lastPatternImage)
    {
      var r := Compute(image, lib);
      if r.Err? {
        return Err(InvalidInput);
      }
      d := Ok(r.value.data);
    }

    /** The loop of compute(images, rowStack): compute image i and copy its
        descriptor into slot i of the buffer, until an image fails. */
    method FillDescriptors(images: seq<Mat<real>>, size: nat, out: array<real>, lib: Library) returns (ok: bool)
      requires Valid() && IsInitialized() && Ready() && forall i :: 0 <= i < |images| ==> images[i].WellFormed()
      requires size == builder.HistogramLength() && out.Length == |images| * size
      modifies this, out
      ensures Valid() && config == old(config) && extractor == old(extractor) && builder == old(builder)
      ensures IsInitialized() && SetupReady(Snapshot()) && Snapshot() == old(Snapshot())
      ensures ok <==> DescriptorsOf(Snapshot(), images, lib).Ok?
      ensures ok ==> out[..] == Concat(DescriptorsOf(Snapshot(), images, lib).value)
      ensures ok && |images| > 0 ==> PatternOf(Snapshot(), images[|images| - 1], lib).Ok?
                                     && lastPatternImage == PatternOf(Snapshot(), images[|images| - 1], lib).value
      ensures |images| == 0 ==> lastPatternImage == old(lastPatternImage)
    {
      ghost var s := Snapshot();
      ghost var descs: seq<seq<real>> := [];
      for i := 0 to |images|
        invariant Valid() && config == old(config) && extractor == old(extractor) && builder == old(builder)
        invariant IsInitialized() && Snapshot() == s
        invariant Progress(s, images, i, descs, out[..], size, lastPatternImage, old(lastPatternImage), lib)
      {
        var next: bool;
        next, descs := FillSlot(images, i, size, out, s, descs, old(lastPatternImage), lib);
        if !next {
          return false;
        }
      }
      BatchDone(s, images, descs, out[..], size, lastPatternImage, old(lastPatternImage), lib);
      ok := true;
    }
    /** One iteration of the batch loop: compute image i and copy its descriptor
        into slot i, or report that the batch fails. */
    method FillSlot(images: seq<Mat<real>>, i: nat, size: nat, out: array<real>, ghost s: Setup,
                    ghost descs: seq<seq<real>>, ghost before: Mat<nat>, lib: Library)
      returns (ok: bool, ghost descs': seq<seq<real>>)
      requires Valid() && IsInitialized() && Ready() && Snapshot() == s && SetupReady(s)
      requires forall k :: 0 <= k < |images| ==> images[k].WellFormed()
      requires i < |images| && size == builder.HistogramLength() && out.Length == |images| * size
      requires Progress(s, images, i, descs, out[..], size, lastPatternImage, before, lib)
      modifies this, out
      ensures Valid() && config == old(config) && extractor == old(extractor) && builder == old(builder)
      ensures IsInitialized() && Snapshot() == s
      ensures !ok ==> DescriptorsOf(s, images, lib).Err?
      ensures ok ==> Progress(s, images, i + 1, descs', out[..], size, lastPatternImage, before, lib)
    {
      var d := ComputeEntries(images[i], lib);
      if d.Err? {
        DescriptorsFail(s, images, i, lib);
        return false, descs;
      }
      RecordedNext(s, images, i, lastPatternImage, before, lib);
      AppendDescriptor(out, size, i, |images|, d.value, descs);
      FoundExtends(s, images, i, descs, d.value, lib);
      ok, descs' := true, descs + [d.value];
    }
  }


  /** Descriptor i of a batch is compute(images[i]) and sits at offset i * size of
      the concatenation: row i of the row-stacked matrix, or slot i of the single row. */
  lemma BatchSlot(s: Setup, images: seq<Mat<real>>, lib: Library, i: int)
    requires SetupReady(s) && forall k :: 0 <= k < |images| ==> images[k].WellFormed()
    requires DescriptorsOf(s, images, lib).Ok? && 0 <= i < |images|
    ensures var size, descs := RegionCount(s.width, s.height, s.inside) * s.bins, DescriptorsOf(s, images, lib).value;
            DescriptorOf(s, images[i], lib) == Ok(descs[i]) &&
            0 <= i * size && (i + 1) * size <= |Concat(descs)| && Concat(descs)[i * size .. (i + 1) * size] == descs[i]
  {
    var size, descs := RegionCount(s.width, s.height, s.inside) * s.bins, DescriptorsOf(s, images, lib).value;
    forall k | 0 <= k < |descs|
      ensures |descs[k]| == size
    {
      assert DescriptorOf(s, images[k], lib).Ok?;
    }
    ConcatSlice(descs, size, i);
    MulMonotone(0, i, size);
  }

  /** After i computes of the batch, the last pattern image is that of images[i - 1]
      (and the one before the batch while i is 0). */
  ghost predicate Recorded(s: Setup, images: seq<Mat<real>>, i: int, last: Mat<nat>, before: Mat<nat>, lib: Library)
    requires SetupReady(s) && forall k :: 0 <= k < |images| ==> images[k].WellFormed()
  {
    if i == 0 then last == before
    else 0 < i <= |images| && PatternOf(s, images[i - 1], lib).Ok? && last == PatternOf(s, images[i - 1], lib).value
  }

  /** The batch loop after i images: their descriptors found, stored end to end
      at the front of the buffer, and the last of their pattern images recorded. */
  ghost predicate Progress(s: Setup, images: seq<Mat<real>>, i: int, descs: seq<seq<real>>, a: seq<real>, size: nat,
                           last: Mat<nat>, before: Mat<nat>, lib: Library)
    requires SetupReady(s) && forall k :: 0 <= k < |images| ==> images[k].WellFormed()
  {
    0 <= i <= |images| && |descs| == i && Found(s, images[..i], descs, lib) && Holds(a, i * size, descs)
    && Recorded(s, images, i, last, before, lib)
  }

  /** The batch loop after every image: the buffer is the batch's descriptors, and
      the last pattern image is the last image's. */
  lemma BatchDone(s: Setup, images: seq<Mat<real>>, descs: seq<seq<real>>, a: seq<real>, size: nat,
                  last: Mat<nat>, before: Mat<nat>, lib: Library)
    requires SetupReady(s) && forall k :: 0 <= k < |images| ==> images[k].WellFormed()
    requires Progress(s, images, |images|, descs, a, size, last, before, lib) && |a| == |images| * size
    ensures DescriptorsOf(s, images, lib).Ok? && a == Concat(DescriptorsOf(s, images, lib).value)
    ensures |images| > 0 ==> PatternOf(s, images[|images| - 1], lib).Ok?
                             && last == PatternOf(s, images[|images| - 1], lib).value
    ensures |images| == 0 ==> last == before
  {
    assert images[..|images|] == images;
    DescriptorsFrom(s, images, descs, lib);
    assert a == a[..|images| * size];
  }

  /** A compute whose descriptor exists recorded its pattern image. */
  lemma RecordedNext(s: Setup, images: seq<Mat<real>>, i: nat, last: Mat<nat>, before: Mat<nat>, lib: Library)
    requires SetupReady(s) && forall k :: 0 <= k < |images| ==> images[k].WellFormed()
    requires i < |images| && DescriptorOf(s, images[i], lib).Ok?
    requires PatternOf(s, images[i], lib).Ok? ==> last == PatternOf(s, images[i], lib).value
    ensures Recorded(s, images, i + 1, last, before, lib)
  {
  }

  /** descs[k] is the descriptor of images[k], for every k. */
  ghost predicate Found(s: Setup, images: seq<Mat<real>>, descs: seq<seq<real>>, lib: Library)
    requires SetupReady(s) && forall k :: 0 <= k < |images| ==> images[k].WellFormed()
  {
    |descs| == |images| && forall k :: 0 <= k < |images| ==> DescriptorOf(s, images[k], lib) == Ok(descs[k])
  }

  /** One more descriptor found extends the prefix found so far. */
  lemma FoundExtends(s: Setup, images: seq<Mat<real>>, i: nat, descs: seq<seq<real>>, d: seq<real>, lib: Library)
    requires SetupReady(s) && forall k :: 0 <= k < |images| ==> images[k].WellFormed()
    requires i < |images| && Found(s, images[..i], descs, lib) && DescriptorOf(s, images[i], lib) == Ok(d)
    ensures Found(s, images[..i + 1], descs + [d], lib)
  {
  }

  /** One image without a descriptor leaves the batch without descriptors. */
  lemma DescriptorsFail(s: Setup, images: seq<Mat<real>>, i: nat, lib: Library)
    requires SetupReady(s) && forall k :: 0 <= k < |images| ==> images[k].WellFormed()
    requires i < |images| && DescriptorOf(s, images[i], lib).Err?
    ensures DescriptorsOf(s, images, lib).Err?
  {
  }

  /** Descriptors found one by one are the descriptors of the batch. */
  lemma DescriptorsFrom(s: Setup, images: seq<Mat<real>>, descs: seq<seq<real>>, lib: Library)
    requires SetupReady(s) && forall k :: 0 <= k < |images| ==> images[k].WellFormed()
    requires Found(s, images, descs, lib)
    ensures DescriptorsOf(s, images, lib) == Ok(descs)
  {
    assert forall k :: 0 <= k < |images| ==> DescriptorOf(s, images[k], lib).Ok?;
    assert DescriptorsOf(s, images, lib).value == descs;
  }

  /** The first n cells of a hold the concatenation of descs. */
  ghost predicate Holds(a: seq<real>, n: int, descs: seq<seq<real>>)
  {
    0 <= n <= |a| && a[..n] == Concat(descs)
  }

  /** Copying descriptor i into slot i of the batch buffer extends the
      concatenation held by its first i slots. */
  method AppendDescriptor(out: array<real>, size: nat, i: nat, count: nat, d: seq<real>, ghost descs: seq<seq<real>>)
    requires i < count && out.Length == count * size && |d| == size
    requires Holds(out[..], i * size, descs)
    modifies out
    ensures Holds(out[..], (i + 1) * size, descs + [d])
  {
    MulMonotone(i + 1, count, size);
    assert (i + 1) * size <= out.Length;
    ghost var before := out[..];
    WriteSlot(out, i, size, d);
    SlotWritten(before, out[..], i, size, d);
    PrefixKept(before, out[..], i, size, d);
    PrefixGrows(out[..], descs, d, i * size);
    assert i * size + |d| == (i + 1) * size;
  }
}
