# PALM in Dafny

PALM (Pattern images and Local Moments) describes a grey-level image by a
histogram descriptor built in three steps:

1. **Zernike bases.** `ZernikeBaseGenerator` evaluates the complex Zernike
   polynomial V(n, m) on a square grid. It gives the real and imaginary planes,
   either exactly on a patch or on a small core resized to the patch.
2. **Pattern image.** `PatternImageExtractor` builds a bank of filters from the
   bases of every order up to the configured moment order. These are the
   normalised real and imaginary planes of each base with m != 0. It then slides
   a window over the image with a fixed stride. Each window gets a code whose
   bit k says whether the response of filter k is positive. The approximated
   variant computes the eight responses in closed form on a 4 x 4 core of the
   downsampled image.
3. **Histograms.** `HistogramBuilder` divides the pattern image into a grid of
   regions, plus an optional shifted inside grid. It weights each region's codes
   by a Gaussian kernel, normalises each region histogram by its L2 norm, and
   lays the histograms end to end.

`PALM` ties the three together from a configuration. It also stacks the
descriptors of a batch of images, and measures the L1 distance between two
descriptors.

The model has five modules:

- `Common` (common.dfy): errors and results, and C++ truncating division.
  It also has row-major matrices as in cv::Mat and slot copies into flat
  buffers. The floating-point and OpenCV primitives are kept abstract in a
  `Library` value, which every operation takes as a parameter.
- `Zernike` (zernike.dfy): `ZernikeBaseGenerator.cpp`.
- `PatternImages` (patterns.dfy): `PatternImageExtractor.cpp`.
- `Histograms` (histograms.dfy): `HistogramBuilder.cpp`.
- `Pipeline` (pipeline.dfy): `PALM.cpp`.

The source's objects are Dafny classes whose fields the setters update: the
generator, the extractor, the builder and the PALM object. The loops that fill
buffers in place are methods over `array`/`array2`. Each is proved equal to a
specification function, and the properties of the source are lemmas about
those functions.

Three facts about the code that shape the model:

- **Default descriptor size.** With the default configuration (5 x 5 grid,
  inside partitioning, moment order 2, so 4 filters and 16 bins),
  `histogramLength` is (5·5 + 4·4)·16 = 656. See `Pipeline.DefaultSizes`
  and `Pipeline.Palm.CreateDefault`.
- **Approximated stride.** The approximated constructor accepts a patch and
  step whose approximated stride `step / (patch / 4)` is 0: patch 32 with
  step 4 passes every setter check. See `PatternImages.ZeroStrideConfiguration`.
- **initialize can fail halfway.** `PALM::initialize` replaces the extractor
  before it builds the histogram builder. When the builder is then refused,
  the object keeps the new extractor beside the old builder.
  `Pipeline.Palm.Initialize` states this partial update as written.

## Model

| member | source | states |
|---|---|---|
| Zernike.NmRelationMeaning | PALM/ZernikeBaseGenerator.cpp:54-58 | (n, m) is valid iff abs(m) <= n and n - abs(m) is even; validity does not depend on the sign of m |
| Zernike.Fact | PALM/ZernikeBaseGenerator.cpp:60-70 | the factorial the radial sum divides by is at least 1 for every argument, negative ones included |
| Zernike.Factorial | PALM/ZernikeBaseGenerator.cpp:60-70 | the loop returns 1 for x <= 0 and x·(x-1)! otherwise |
| Zernike.RadialIndices | PALM/ZernikeBaseGenerator.cpp:87-98 | for a valid (n, m >= 0) and 0 <= s <= (n-m)/2, the factorial arguments n-s, (n-2s+m)/2 and (n-2s-m)/2 are non-negative, and the halvings are exact |
| Zernike.DiagonalSquared | PALM/ZernikeBaseGenerator.cpp:83 | the squared diagonal 2·size² of the grid is positive, so the normalisation 4/D² is defined |
| Zernike.GridOf | PALM/ZernikeBaseGenerator.cpp:74-75 | the planes are size x size; cell (y, x) is the real or imaginary part of the pixel value at (x, y) |
| Zernike.GridOfRows | PALM/ZernikeBaseGenerator.cpp:77-106 | a plane's buffer is its rows laid end to end, y ascending, which is the order the nested loops fill it in |
| Zernike.ExactGrid | PALM/ZernikeBaseGenerator.cpp:72-107 | an exact base is a size x size grid whose cell (y, x) is a part of the conjugated, normalised radial sum at pixel (x, y) |
| Zernike.RadialSumAt | PALM/ZernikeBaseGenerator.cpp:87-101 | the s loop returns the sum of the (n-m)/2 + 1 radial terms |
| Zernike.StorePixel | PALM/ZernikeBaseGenerator.cpp:103-104 | one pixel writes the real and imaginary parts at its index and leaves every other cell as it was |
| Zernike.FillRow | PALM/ZernikeBaseGenerator.cpp:79-105 | the inner loop writes row y of both planes at its offset and keeps the cells before it |
| Zernike.RowStored | PALM/ZernikeBaseGenerator.cpp:77-106 | a prefix holding rows 0..y-1, followed by row y, holds rows 0..y |
| Zernike.FillNextRow | PALM/ZernikeBaseGenerator.cpp:77-106 | one outer iteration extends both planes' filled prefix by one row |
| Zernike.FillGrid | PALM/ZernikeBaseGenerator.cpp:77-106 | the nested loops leave both buffers equal to all rows laid end to end |
| Zernike.Compute | PALM/ZernikeBaseGenerator.cpp:72-107 | compute returns exactly the real and imaginary exact grids |
| Zernike.BaseOf | PALM/ZernikeBaseGenerator.cpp:25-35 | a generated base carries its (n, m) and two size x size planes; the approximated base is computed on the core and resized to size (lines 124-138) |
| Zernike.MsBelowMembers | PALM/ZernikeBaseGenerator.cpp:42-49 | the m loop keeps exactly the m below the bound that are valid with n |
| Zernike.MsBelowIncreasing | PALM/ZernikeBaseGenerator.cpp:42-49 | the kept m are strictly increasing |
| Zernike.MsBelowLength | PALM/ZernikeBaseGenerator.cpp:42-49 | below k <= n + 1 the loop keeps (k + 1 - n mod 2)/2 values |
| Zernike.ValidMsProperties | PALM/ZernikeBaseGenerator.cpp:37-52 | generate(n) visits exactly the m in 0..n valid with n, increasing, n/2 + 1 of them |
| Zernike.BasesBelowLength | PALM/ZernikeBaseGenerator.cpp:42-49 | one base is generated per kept m |
| Zernike.BasesBelowAt | PALM/ZernikeBaseGenerator.cpp:42-49 | base i is the base of the i-th kept m, which is valid |
| Zernike.GenerateAllBases | PALM/ZernikeBaseGenerator.cpp:37-52 | generate(n) returns n/2 + 1 bases; base k is generate(n, m_k) for the k-th valid m |
| Zernike.ZernikeBaseGenerator.NewExact | PALM/ZernikeBaseGenerator.cpp:13-23 | the exact generator is built iff size > 1, with that size |
| Zernike.ZernikeBaseGenerator.NewApproximated | PALM/ZernikeBaseGenerator.cpp:110-122 | the approximated generator is built iff size > 1 and 1 < coreSize <= size |
| Zernike.ZernikeBaseGenerator.SetSize | PALM/ZernikeBaseGenerator.cpp:18-23 | the size is accepted iff > 1; a refused size leaves the state unchanged |
| Zernike.ZernikeBaseGenerator.SetCoreSize | PALM/ZernikeBaseGenerator.cpp:116-122 | the core size is accepted iff 1 < coreSize <= size; otherwise nothing changes |
| Zernike.ZernikeBaseGenerator.Generate | PALM/ZernikeBaseGenerator.cpp:25-35 | generate(n, m) succeeds iff n, m >= 0 and the pair is valid, and then returns the exact or approximated base (lines 124-138); otherwise InvalidOrder |
| Zernike.ZernikeBaseGenerator.GenerateRound | PALM/ZernikeBaseGenerator.cpp:44-48 | one m iteration appends the base for m exactly when (n, m) is valid |
| Zernike.ZernikeBaseGenerator.GenerateAll | PALM/ZernikeBaseGenerator.cpp:37-52 | generate(n) succeeds iff n >= 0 and returns the bases of all valid m in order |
| PatternImages.PackBits | PALM/PatternImageExtractor.cpp:97 | the code of k flags is below 2^k |
| PatternImages.PackBitsSnoc | PALM/PatternImageExtractor.cpp:97 | OR-ing flag k in at bit position k adds 2^k exactly when the flag is set |
| PatternImages.PackBitsDigit | PALM/PatternImageExtractor.cpp:97 | bit k of the code is set iff flag k is set |
| PatternImages.PackBitsHigh | PALM/PatternImageExtractor.cpp:97 | no bit at or above the number of flags is set |
| PatternImages.PackBitsBelow | PALM/PatternImageExtractor.cpp:97 | flags that are all clear from position n upward give a code below 2^n |
| PatternImages.Byte | PALM/PatternImageExtractor.cpp:85 | the uchar value is below 256 and, for at most 8 flags, equals the packed code |
| PatternImages.Signs | PALM/PatternImageExtractor.cpp:88-97 | flag k is set iff the window's dot product with filter k is positive |
| PatternImages.RowProduct | PALM/PatternImageExtractor.cpp:91-94 | the inner loop adds one row of the window·filter products to the running sum |
| PatternImages.WindowProduct | PALM/PatternImageExtractor.cpp:88-95 | the double loop returns the full window·filter dot product |
| PatternImages.RegularApplyFilters | PALM/PatternImageExtractor.cpp:83-101 | the regular code is the uchar of the sign flags of all filters |
| PatternImages.RegularCodeBits | PALM/PatternImageExtractor.cpp:83-101 | with at most 8 filters, the code is below 2^|filters|, bit k is set iff response k is positive, and no higher bit is set |
| PatternImages.Core | PALM/PatternImageExtractor.cpp:191-198 | the core is the 4 x 4 block of the input at the window's corner |
| PatternImages.CoreFlags | PALM/PatternImageExtractor.cpp:210-264 | the approximated filters produce eight flags |
| PatternImages.PackEight | PALM/PatternImageExtractor.cpp:218-263 | the code of eight flags is the sum of flag k times 2^k, the weights the approximated code adds |
| PatternImages.CoreCodeBoundPowers | PALM/PatternImageExtractor.cpp:210-264 | for orders 1 to 3 the approximated codes stay below 2^(2^order), matching the regular bank's bin count |
| PatternImages.ApproximatedApplyFilters | PALM/PatternImageExtractor.cpp:188-267 | the approximated code packs the eight gated sign flags of v1..v8 on the core |
| PatternImages.CoreCodeBits | PALM/PatternImageExtractor.cpp:210-264 | bit k of the approximated code is flag k; bits 0-1 need order > 0, bits 2-3 order > 1, bits 4-7 order > 2; the code is below the order's bound |
| PatternImages.ConstantCoreCode | PALM/PatternImageExtractor.cpp:214-263 | on a constant core all eight responses are 0 and the code is 0 |
| PatternImages.WindowsInside | PALM/PatternImageExtractor.cpp:105-118 | with patch <= length there is at least one window, and every window index i starts at i·step with its patch inside the image |
| PatternImages.OrderBases | PALM/PatternImageExtractor.cpp:129-131 | the bases of orders 0..k-1 form k groups |
| PatternImages.OrderBasesAt | PALM/PatternImageExtractor.cpp:129-131 | group n is generate(n) |
| PatternImages.BaseFiltersLength | PALM/PatternImageExtractor.cpp:132-143 | an order adds two filters per base with m != 0 |
| PatternImages.BaseFiltersPairs | PALM/PatternImageExtractor.cpp:132-143 | filters 2i and 2i+1 are the normalised real and imaginary planes of the i-th base with m != 0 |
| PatternImages.BaseFiltersShapes | PALM/PatternImageExtractor.cpp:137-141 | filters made from square bases of a size are square of that size |
| PatternImages.NonZeroBasesCount | PALM/PatternImageExtractor.cpp:134 | the bases kept from generate(n) are exactly those of the valid m != 0 |
| PatternImages.FilterCountStep | PALM/PatternImageExtractor.cpp:129-144 | each order adds twice its count of valid m != 0 to the filter count |
| PatternImages.FiltersOfStep | PALM/PatternImageExtractor.cpp:129-144 | the filters of orders 0..k-1 are those of orders 0..k-2 followed by order k-1's |
| PatternImages.OrderFilterCount | PALM/PatternImageExtractor.cpp:132-143 | order n adds 2·(valid m != 0) filters |
| PatternImages.FiltersOfLength | PALM/PatternImageExtractor.cpp:123-147 | the bank up to order k-1 has FilterCount(k-1) filters |
| PatternImages.FilterBankSize | PALM/PatternImageExtractor.cpp:123-147 | for moment orders 1 to 3 the bank has 2^order filters |
| PatternImages.FilterBankCount | PALM/PatternImageExtractor.cpp:123-147 | for any order up to 3 the bank's size is the filter count of the order |
| PatternImages.FilterCountPowers | PALM/PatternImageExtractor.cpp:129-144 | the filter counts of orders 1, 2, 3 are 2, 4, 8 |
| PatternImages.FilterBankShapes | PALM/PatternImageExtractor.cpp:123-147 | every filter is patch x patch |
| PatternImages.AppendFilters | PALM/PatternImageExtractor.cpp:132-143 | the base loop appends the order's filters after those already there |
| PatternImages.AppendOrder | PALM/PatternImageExtractor.cpp:129-144 | one order iteration extends the bank from orders below n to orders below n + 1 |
| PatternImages.CreateFilters | PALM/PatternImageExtractor.cpp:123-147 | createFilters returns the filters of orders 0..momentOrder; none for a negative order |
| PatternImages.ComputeOkWhenLarge | PALM/PatternImageExtractor.cpp:105-118 | an input at least as large as the patch always gives a non-empty pattern image |
| PatternImages.WindowCodeBound | PALM/PatternImageExtractor.cpp:83-101 | with 2^order filters every window code is below 2^|filters|, in both variants (lines 188-267) |
| PatternImages.PatternImageBound | PALM/PatternImageExtractor.cpp:103-121 | every cell of a pattern image is below the bin count 2^|filters| |
| PatternImages.PatternImage | PALM/PatternImageExtractor.cpp:103-121 | the pattern image has the truncated grid shape; cell (i, j) is the code of the window at (i·step, j·step), which lies inside the input |
| PatternImages.PatternImageUnique | PALM/PatternImageExtractor.cpp:103-121 | any matrix meeting that description is the pattern image |
| PatternImages.ZeroStrideConfiguration | PALM/PatternImageExtractor.cpp:179-180 | patch 32, step 4, order 2 is accepted by the approximated constructor, yet its stride 4/(32/4) is 0 |
| PatternImages.ExactQuotient | PALM/PatternImageExtractor.cpp:47-52 | when step divides patch, the overlap density times step is the patch, and the density is at least 2 |
| PatternImages.InputFor | PALM/PatternImageExtractor.cpp:71-81 | the matrix handed to compute is a single plane for a single-channel image; the approximated variant shrinks it (lines 173-185) |
| PatternImages.PatternImageExtractor.Blank | PALM/PatternImageExtractor.cpp:6-12 | a fresh extractor has the filter type and zero sizes, order and filters |
| PatternImages.PatternImageExtractor.SetPatchSize | PALM/PatternImageExtractor.cpp:33-38 | the patch size is accepted iff > 3; otherwise nothing changes |
| PatternImages.PatternImageExtractor.SetStepSize | PALM/PatternImageExtractor.cpp:40-45 | the step is accepted iff 0 < step < patch; otherwise nothing changes |
| PatternImages.PatternImageExtractor.SetMomentOrder | PALM/PatternImageExtractor.cpp:54-59 | the order is accepted iff 0 < order < 4; otherwise nothing changes |
| PatternImages.PatternImageExtractor.OverlapDensity | PALM/PatternImageExtractor.cpp:47-52 | the density is defined iff step divides patch (with valid sizes); then density·step == patch |
| PatternImages.PatternImageExtractor.Create | PALM/PatternImageExtractor.cpp:14-31 | create succeeds iff the sizes and order pass the setters and, for the approximated variant, getOverlapDensity (lines 158-165); the extractor holds the configuration and the filter bank |
| PatternImages.PatternImageExtractor.ApplyFilters | PALM/PatternImageExtractor.cpp:83-101 | applyFilters returns the window code of the extractor's variant (lines 188-267) |
| PatternImages.PatternImageExtractor.ComputeRow | PALM/PatternImageExtractor.cpp:110-118 | row i of the code buffer holds the codes of the windows of row i, all inside the input |
| PatternImages.PatternImageExtractor.Compute | PALM/PatternImageExtractor.cpp:103-121 | compute succeeds iff the truncated grid has non-negative sides and, when non-empty, the patch fits; the result is the pattern image; otherwise InvalidInput |
| PatternImages.PatternImageExtractor.ExtractInput | PALM/PatternImageExtractor.cpp:167-186 | the input extract passes to compute is a plane for a single-channel image |
| PatternImages.PatternImageExtractor.Extract | PALM/PatternImageExtractor.cpp:71-81 | extract refuses empty, multi-channel or zero-sided images with InvalidInput; otherwise it is the pattern image of the (approximated: shrunk, lines 167-186) input whenever compute accepts it |
| Histograms.Normalize | PALM/HistogramBuilder.cpp:67 | normalisation keeps the number of bins |
| Histograms.NormalizeScales | PALM/HistogramBuilder.cpp:67 | each bin is divided by the L2 norm plus epsilon, which is positive; zero and positive bins stay zero and positive |
| Histograms.NormalizeMonotone | PALM/HistogramBuilder.cpp:67 | normalisation keeps the order between any two bins |
| Histograms.RowWeightAbsent | PALM/HistogramBuilder.cpp:58-64 | a code absent from a row adds no weight from that row |
| Histograms.WeightAbsent | PALM/HistogramBuilder.cpp:56-65 | a code absent from the region gets weight 0 |
| Histograms.AbsentCodeEmptyBin | PALM/HistogramBuilder.cpp:54-70 | the normalised bin of an absent code is 0 |
| Histograms.AccumulateRow | PALM/HistogramBuilder.cpp:58-64 | one row of the accumulation adds that row's kernel weights to each code's bin |
| Histograms.RegionHistogram | PALM/HistogramBuilder.cpp:54-70 | getRegionHistogram returns the normalised kernel-weighted count of each code |
| Histograms.RegionCount | PALM/HistogramBuilder.cpp:72-84 | the descriptor has at least width·height regions (width·height + (width-1)·(height-1) with inside partitioning) |
| Histograms.SlotRegionRoundTrip | PALM/HistogramBuilder.cpp:107 | every slot is the slot of a valid region and maps back to it (the inside slots at line 133) |
| Histograms.RegionSlotRoundTrip | PALM/HistogramBuilder.cpp:107 | a valid region's slot is in range and maps back to the region (the inside slots at line 133) |
| Histograms.GridRoundTrip | PALM/HistogramBuilder.cpp:107 | the main-grid region (i, j) has a slot below width·height that maps back to it |
| Histograms.ShiftedRoundTrip | PALM/HistogramBuilder.cpp:133 | an inside region has a slot after the main grid that maps back to it |
| Histograms.GridSlot | PALM/HistogramBuilder.cpp:107 | the main slot j·width + i decodes to (i, j) |
| Histograms.ShiftedSlot | PALM/HistogramBuilder.cpp:133 | the inside slot j·(width-1) + i decodes to (i, j) |
| Histograms.SlotsDistinct | PALM/HistogramBuilder.cpp:107-109 | distinct regions are written to distinct slots, the inside ones at lines 133-135 |
| Histograms.RegionInside | PALM/HistogramBuilder.cpp:98-103 | every region, main or shifted by half a region (lines 125-129), lies inside the pattern image |
| Histograms.SpanInside | PALM/HistogramBuilder.cpp:125-128 | a (possibly half-shifted) span of size n/count lies inside 0..n |
| Histograms.GridRegionsDisjoint | PALM/HistogramBuilder.cpp:98-103 | two main-grid regions covering the same pixel are the same region |
| Histograms.RemainderUncovered | PALM/HistogramBuilder.cpp:91-103 | rows at or below height·regionHeight, the remainder of the truncated region size, belong to no main region |
| Histograms.Crop | PALM/HistogramBuilder.cpp:102-103 | the region view has the region's shape |
| Histograms.CropAt | PALM/HistogramBuilder.cpp:102-103 | cell (i, j) of a region is cell (top + i, left + j) of the pattern image |
| Histograms.CropCodes | PALM/HistogramBuilder.cpp:102-103 | a region of an image whose codes are below the bin count has codes below it too |
| Histograms.LayoutFits | PALM/HistogramBuilder.cpp:91-103 | every valid region fits in the image and has a histogram of binCount entries |
| Histograms.SlotParts | PALM/HistogramBuilder.cpp:94-140 | there is one histogram per descriptor slot |
| Histograms.LayoutOf | PALM/HistogramBuilder.cpp:91-96 | the region size and Gaussian kernel computed from a plane give a layout |
| Histograms.LayoutPartsWide | PALM/HistogramBuilder.cpp:107-109 | every region histogram is binCount wide |
| Histograms.DescriptorLength | PALM/HistogramBuilder.cpp:94-95 | the descriptor has RegionCount·binCount entries |
| Histograms.SlotPartsWidth | PALM/HistogramBuilder.cpp:107-109 | every slot's part is binCount wide |
| Histograms.ConcatLayout | PALM/HistogramBuilder.cpp:107-109 | entry slot·bins + b of the concatenation is bin b of the region at that slot (the inside slots at lines 133-135) |
| Histograms.DescriptorLayout | PALM/HistogramBuilder.cpp:107-109 | entry slot(r)·bins + b of the descriptor is bin b of region r's histogram, for main and inside regions (lines 133-135) |
| Histograms.FilledAt | PALM/HistogramBuilder.cpp:107-109 | a filled region's bins sit at its slot |
| Histograms.FilledCell | PALM/HistogramBuilder.cpp:95-140 | when every region is filled, every descriptor cell is the bin of its slot's region |
| Histograms.FilledCells | PALM/HistogramBuilder.cpp:95-140 | when every region is filled, every cell matches its slot's histogram |
| Histograms.FilledMakesConcat | PALM/HistogramBuilder.cpp:95-140 | a buffer with every region filled equals the descriptor |
| Histograms.FillRegion | PALM/HistogramBuilder.cpp:102-109 | one region's histogram is copied into its slot; regions already filled stay filled (the inside regions at lines 125-135) |
| Histograms.FillColumn | PALM/HistogramBuilder.cpp:100-110 | one column of the loop fills that column's regions and keeps the earlier ones (the inside loop at lines 123-136) |
| Histograms.HistogramBuilder.Blank | PALM/HistogramBuilder.cpp:6-11 | a fresh builder has zero grid and bins and no inside partitioning |
| Histograms.HistogramBuilder.SetGridSize | PALM/HistogramBuilder.cpp:13-18 | the grid is accepted iff both sides are positive; otherwise nothing changes |
| Histograms.HistogramBuilder.SetBinCount | PALM/HistogramBuilder.cpp:25-30 | the bin count is accepted iff > 1; otherwise nothing changes |
| Histograms.HistogramBuilder.SetApplyInsidePartitioning | PALM/HistogramBuilder.cpp:20-23 | the flag is stored; nothing else changes |
| Histograms.HistogramBuilder.Create | PALM/HistogramBuilder.cpp:6-11 | the builder is built iff the grid is positive and bins > 1, and it holds those values |
| Histograms.HistogramBuilder.HistogramLength | PALM/HistogramBuilder.cpp:72-84 | the length is (width·height + (width-1)·(height-1) if inside) times binCount |
| Histograms.HistogramBuilder.Build | PALM/HistogramBuilder.cpp:32-35 | build succeeds iff the region size of line 91 is at least one cell each way (a non-empty image, lines 88-89, with at least gridHeight rows and gridWidth columns); the result is one row, histogramLength wide, holding every region histogram at its slot (lines 86-141) |
| Pipeline.DefaultSizes | PALM/PALM.cpp:6-14 | the default configuration initialises, gives 4 filters and 16 bins, and a descriptor of 656 entries |
| Pipeline.L1Distance | PALM/PALM.cpp:118 | the L1 distance is non-negative and 0 for empty inputs |
| Pipeline.L1Symmetric | PALM/PALM.cpp:118 | the L1 distance is symmetric |
| Pipeline.L1ZeroIff | PALM/PALM.cpp:118 | the L1 distance is 0 iff the descriptors are equal |
| Pipeline.L1Triangle | PALM/PALM.cpp:118 | the L1 distance obeys the triangle inequality |
| Pipeline.Distance | PALM/PALM.cpp:114-119 | distance is defined iff both descriptors are non-empty single rows of equal width (and equal channels); it is then their L1 distance; otherwise InvalidInput |
| Pipeline.DistanceProperties | PALM/PALM.cpp:114-119 | distance is symmetric, and 0 iff the descriptors are identical |
| Pipeline.PatternOf | PALM/PALM.cpp:78 | the pattern image of an initialised pipeline has codes below the bin count |
| Pipeline.PatternCodes | PALM/PALM.cpp:44 | a bin count of at least 2^|filters| (initialize gives exactly that) bounds every code of a pattern image |
| Pipeline.DescriptorOf | PALM/PALM.cpp:74-84 | a descriptor comes from a pattern image and has RegionCount·bins entries; a refused image gives InvalidInput |
| Pipeline.DescriptorsOf | PALM/PALM.cpp:103-109 | a batch has one descriptor per image |
| Pipeline.BatchSlot | PALM/PALM.cpp:107-108 | in the stacked batch, entries i·size .. (i+1)·size are the descriptor of image i |
| Pipeline.FoundExtends | PALM/PALM.cpp:103-109 | after i images, one more descriptor extends the batch found so far |
| Pipeline.DescriptorsFail | PALM/PALM.cpp:105 | one refused image makes the whole batch fail |
| Pipeline.DescriptorsFrom | PALM/PALM.cpp:103-109 | descriptors found for every image are the batch's descriptors |
| Pipeline.AppendDescriptor | PALM/PALM.cpp:107-108 | copying descriptor i into slot i extends the stacked prefix by one descriptor |
| Pipeline.Palm.Blank | PALM/PALM.cpp:23-26 | a fresh object holds the configuration and no extractor, builder or pattern image |
| Pipeline.Palm.Initialize | PALM/PALM.cpp:38-47 | initialize succeeds iff the extractor is accepted and the grid is positive; it installs a new extractor with the 2^order bank and a builder of gridSize x gridSize regions and 2^|filters| bins; a refused builder leaves the new extractor beside the old builder |
| Pipeline.Palm.SetConfig | PALM/PALM.cpp:28-36 | setConfig stores the configuration and initialises only when asked; a successful initialisation leaves a new extractor and builder built from c (its sizes, order, filter bank, grid, partitioning and 2^|filters| bins); a refused extractor changes neither object, a refused builder leaves the new extractor beside the old builder (lines 38-47) |
| Pipeline.Palm.Create | PALM/PALM.cpp:23-26 | the constructor succeeds unless it is asked to initialise an invalid configuration; it is initialised exactly when asked, and then its extractor and builder are built from c |
| Pipeline.Palm.CreateDefault | PALM/PALM.cpp:17-21 | PALM(initialize) on the default configuration always succeeds; initialised, it has 4 filters, 16 bins and descriptorSize() == 656; otherwise descriptorSize fails with NotInitialized |
| Pipeline.Palm.DescriptorSize | PALM/PALM.cpp:55-60 | descriptorSize is defined iff initialised, and is the builder's histogram length; otherwise NotInitialized |
| Pipeline.Palm.LastPatternImage | PALM/PALM.cpp:62-67 | the last pattern image is returned iff it is non-empty |
| Pipeline.Palm.SnapshotReady | PALM/PALM.cpp:38-47 | an initialised object whose builder has a bin for each of the extractor's 2^|filters| codes, with a positive stride, gives a setup compute can run on |
| Pipeline.Palm.Compute | PALM/PALM.cpp:74-84 | compute fails with NotInitialized before initialisation; otherwise it succeeds iff the image has a descriptor, returns it as one row, and records the pattern image |
| Pipeline.Palm.ComputeEntries | PALM/PALM.cpp:105 | one compute inside the batch loop gives the descriptor of its image, keeps the setup, and records the image's pattern image as the last one when extraction succeeds (line 79), leaving it alone otherwise |
| Pipeline.Palm.FillDescriptors | PALM/PALM.cpp:103-109 | the batch loop succeeds iff every image has a descriptor, and then leaves the buffer equal to the descriptors laid end to end and the last pattern image equal to that of the last image |
| Pipeline.Palm.FillSlot | PALM/PALM.cpp:105-108 | one loop iteration either shows the batch fails or computes image i, copies its descriptor into slot i and records its pattern image |
| Pipeline.BatchDone | PALM/PALM.cpp:103-111 | after every image the buffer is the batch's descriptors end to end, and the last pattern image is the last image's |
| Pipeline.RecordedNext | PALM/PALM.cpp:79 | after compute(images[i]) yields a descriptor, the last pattern image is that of images[i] |
| Pipeline.Palm.ComputeAll | PALM/PALM.cpp:86-112 | the batch fails before initialisation or on an empty batch, leaving the last pattern image; otherwise it succeeds iff every image has a descriptor, returns them stacked (one row per image, or all in one row), and leaves the last image's pattern image as the last one |
| Common.TruncDiv | PALM/PatternImageExtractor.cpp:105-106 | C++ integer division truncates toward zero: the remainder a - q·b lies in [0, b) for a >= 0 and in (-b, 0] for a < 0 |
| Common.Flatten | PALM/PatternImageExtractor.cpp:108-120 | the filled code buffer becomes a matrix of the same shape and cells |
| Common.WriteSlot | PALM/PALM.cpp:107-108 | copyTo into slot s writes that slot and leaves every other cell as it was |
| Common.ConcatSlice | PALM/PALM.cpp:107 | slice s of parts of equal width laid end to end is part s |
| Common.GaussianKernel | PALM/HistogramBuilder.cpp:37-52 | the Gaussian kernel has the region's shape |
| Common.ResizeArea | PALM/ZernikeBaseGenerator.cpp:132-134 | cv::resize to size x size gives that shape |
| Common.NormalizeMinMax | PALM/PatternImageExtractor.cpp:137-141 | cv::normalize keeps the plane's shape |
| Common.L2Norm | PALM/HistogramBuilder.cpp:67 | the L2 norm is never negative |

## Left out

- Pixel geometry: the radius sqrt(xn² + yn²) and the phase std::polar(1, m·θ)
  of each Zernike pixel are abstract functions in `Library`. The model fixes
  the radial sum, the factorials, the normalisation and the conjugation, but
  not these trigonometric values.
- OpenCV numerics are abstract in `Library`. Each is given by the cells it
  produces. The model states the shape OpenCV guarantees for cv::resize to a
  given size (the core-to-patch resize, INTER_AREA), cv::normalize
  (NORM_MINMAX) and getGaussianKernel with its resize, and that cv::norm
  (NORM_L2) is non-negative.
- `Common.Shrink`: the shape of the downsampled image in approximated
  extract (cv::resize by the scale 1/(patch/4), PatternImageExtractor.cpp:183)
  is abstract too; the model states only that it is a single plane.
- Floating point is modelled as exact reals. Nothing proves agreement with
  IEEE double rounding, and the conversion of pattern codes between uchar and
  double is not modelled.
- `Common.GaussianKernel`: getGaussianKernel's sigma-8 weights are not
  modelled, only the shape after the resize.
- `PatternImages.PatternImageExtractor.Extract` requires a positive
  approximated stride. The source divides by a stride
  `step / (patch / 4)` that can be 0, and a zero stride is a C++ division by
  zero. `PatternImages.ZeroStrideConfiguration` shows that the constructor
  lets such a configuration through.
- `Pipeline.Palm.Compute` and `Pipeline.Palm.ComputeAll` require, once
  initialised, that the builder has at least 2^|filters| bins. Only one
  reachable state breaks this: an `initialize` that installs a larger filter
  bank (a higher moment order) and then has its builder refused (a grid size
  that is not positive, HistogramBuilder.cpp:15), so the old builder stays with
  fewer bins. In that state the source's histogram write
  (HistogramBuilder.cpp:62-63) indexes past the end of the histogram, which
  C++ leaves undefined. A refused
  re-initialisation to a smaller bank is covered: its codes fit the old
  builder's bins.
- The int products in the source are not modelled as 32-bit: gridSize.area()
  times binCount (HistogramBuilder.cpp:77-80), size times the image count
  (PALM.cpp:100) and i times size (PALM.cpp:107). Dafny integers are
  unbounded, so the model assumes these products do not overflow.
- `Pipeline.Distance` also requires equal channel counts, as cv::norm
  asserts. The cv::Mat type and depth checks of cv::norm are not modelled.
- `Pipeline.Palm.LastPatternImage` reports its failed CV_Assert as
  NotInitialized. Every CV_Assert failure is modelled as an Err or Fail
  result instead of an exception.
- `Histograms.HistogramBuilder.Build` models the protected compute only as
  build calls it, with the builder's own grid, bin count and flag.
- The regular and approximated filter variants are not proved to agree
  numerically. The approximated filters v1..v8 are modelled exactly as the
  closed forms the source writes.
- `Histograms.HistogramBuilder.Build` returns Err for an image with fewer rows
  than the grid height, or fewer columns than the grid width. Lines 88-89 let
  such an image through, but line 91 then gives a region size with a zero
  side. getGaussianKernel resizes its odd-sized kernel to that size with no
  scale (HistogramBuilder.cpp:46-48), and cv::resize throws on an empty
  target. So the Err stands for that exception.
- `IlluminationFilter`, `main.cpp`, `PALM::filters()` and the `cv::Ptr`
  ownership are not part of this model. Virtual dispatch between the regular
  and approximated extractor and generator is a `FilterType` tag or an
  `approximated` flag instead.
- Exceptions thrown midway through a batch are not modelled: a refused image
  makes the modelled batch return Err, and the partly filled buffer is
  dropped.
- `Pipeline.Palm.ComputeAll`: after a batch that fails at an image, the
  contract does not say which pattern image is left as the last one. In the
  source it is the failing image's own when its extraction succeeded,
  otherwise the previous image's.
