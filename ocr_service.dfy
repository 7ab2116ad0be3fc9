/** The image pre-processing and recognition wrapper (services/ocrService.ts).
    `PreprocessImage` works in place on the RGBA byte buffer of a canvas:
    it writes each pixel's luminosity into the red byte while counting a
    256-bin histogram, picks the Otsu threshold from the histogram, and sets
    red, green and blue to black or white. Each pass is proved against a
    specification function on the buffer's contents; the properties of the
    threshold and of the output are lemmas about those functions. */
module OcrService {
  import opened Types
  import OcrParser

  // ---------------------------------------------------------------------
  // Pixels and gray levels
  // ---------------------------------------------------------------------

  /** Every byte of the buffer lies in 0..255. */
  predicate IsBytes(d: seq<int>) {
    forall k | 0 <= k < |d| :: 0 <= d[k] <= 255
  }

  /** `Math.round(0.299 r + 0.587 g + 0.114 b)`, computed exactly:
      rounding half up is `floor(x + 0.5)`. */
  function Gray(r: int, g: int, b: int): (y: int)
    requires 0 <= r <= 255 && 0 <= g <= 255 && 0 <= b <= 255
    ensures 0 <= y <= 255
  {
    (299 * r + 587 * g + 114 * b + 500) / 1000
  }

  /** The weights add up to one, so a neutral pixel (red, green and blue
      equal) keeps its level; in particular black stays 0 and white 255. */
  lemma GrayOfNeutral(v: int)
    requires 0 <= v <= 255
    ensures Gray(v, v, v) == v
  {
  }

  /** The gray level of pixel `q` (bytes `4q` to `4q + 3`). */
  function GrayAt(d: seq<int>, q: nat): (y: int)
    requires IsBytes(d) && 4 * q + 4 <= |d|
    ensures 0 <= y <= 255
  {
    Gray(d[4 * q], d[4 * q + 1], d[4 * q + 2])
  }

  /** The gray levels of the first `n` pixels, in pixel order. */
  function Grays(d: seq<int>, n: nat): (gs: seq<int>)
    requires IsBytes(d) && 4 * n <= |d|
    ensures |gs| == n
  {
    if n == 0 then [] else Grays(d, n - 1) + [GrayAt(d, n - 1)]
  }

  /** The buffer once the pass has done its first `n` pixels: each of them
      has its gray level written into its red byte, one pixel at a time. */
  function GrayPass(d: seq<int>, n: nat): (e: seq<int>)
    requires IsBytes(d) && 4 * n <= |d|
    ensures |e| == |d|
  {
    if n == 0 then d
    else
      var q := n - 1;
      GrayPass(d, q)[4 * q := GrayAt(d, q)]
  }

  /** How many entries of `s` equal `v`. */
  function Count(s: seq<int>, v: int): (c: nat)
    ensures c <= |s|
  {
    if s == [] then 0
    else Count(s[..|s| - 1], v) + (if s[|s| - 1] == v then 1 else 0)
  }

  /** The 256-bin histogram of the first `n` pixels, built the way the pass
      builds it: one increment per pixel, in pixel order. */
  function Histogram(d: seq<int>, n: nat): (h: seq<int>)
    requires IsBytes(d) && 4 * n <= |d|
    ensures |h| == 256
  {
    if n == 0 then seq(256, v => 0)
    else
      var h := Histogram(d, n - 1);
      var x := GrayAt(d, n - 1);
      h[x := h[x] + 1]
  }

  /** Bin `v` of the histogram is the number of pixels of gray level `v`. */
  lemma {:induction false} HistogramCounts(d: seq<int>, n: nat, v: int)
    requires IsBytes(d) && 4 * n <= |d| && 0 <= v < 256
    ensures Histogram(d, n)[v] == Count(Grays(d, n), v)
    decreases n
  {
    if n > 0 {
      HistogramCounts(d, n - 1, v);
      var gs := Grays(d, n);
      assert gs[..n - 1] == Grays(d, n - 1);
    }
  }

  /** The grayscale pass puts pixel `q`'s gray level in its red byte and
      leaves its other three bytes alone. */
  lemma {:induction false} GrayPassAt(d: seq<int>, n: nat, q: nat)
    requires IsBytes(d) && 4 * n <= |d| && q < n
    ensures GrayPass(d, n)[4 * q] == GrayAt(d, q) == Grays(d, n)[q]
    ensures GrayPass(d, n)[4 * q + 1] == d[4 * q + 1]
    ensures GrayPass(d, n)[4 * q + 2] == d[4 * q + 2]
    ensures GrayPass(d, n)[4 * q + 3] == d[4 * q + 3]
    decreases n
  {
    if q < n - 1 {
      GrayPassAt(d, n - 1, q);
    } else {
      GrayPassBeyond(d, q, 4 * q + 1);
      GrayPassBeyond(d, q, 4 * q + 2);
      GrayPassBeyond(d, q, 4 * q + 3);
    }
  }

  /** The pixels the pass has not reached yet are untouched. */
  lemma {:induction false} GrayPassBeyond(d: seq<int>, n: nat, k: int)
    requires IsBytes(d) && 4 * n <= k < |d|
    ensures GrayPass(d, n)[k] == d[k]
    decreases n
  {
    if n > 0 {
      GrayPassBeyond(d, n - 1, k);
    }
  }

  // ---------------------------------------------------------------------
  // Step 1: grayscale and histogram
  // ---------------------------------------------------------------------

  /** Step 1 of `preprocessImage`: one pass over the `pixels` pixels of the
      buffer that stores each gray level in the red byte and counts it in a
      fresh 256-bin histogram. */
  method GrayscaleAndHistogram(data: array<int>, ghost pixels: nat) returns (histogram: array<int>)
    requires data.Length == 4 * pixels && IsBytes(data[..])
    modifies data
    ensures fresh(histogram) && histogram.Length == 256
    ensures data[..] == GrayPass(old(data[..]), pixels)
    ensures histogram[..] == Histogram(old(data[..]), pixels)
  {
    ghost var d0 := data[..];
    histogram := EmptyHistogram();
    var i := 0;
    ghost var q := 0;
    while i < data.Length
      invariant 0 <= q <= pixels && i == 4 * q && histogram != data
      invariant data[..] == GrayPass(d0, q)
      invariant histogram[..] == Histogram(d0, q)
      decreases data.Length - i
    {
      NextPixel(i, q, data.Length, pixels);
      GrayPixel(data, histogram, i, d0, q);
      i := i + 4;
      q := q + 1;
    }
  }

  /** Byte `i` starts pixel `q`; if it is inside the buffer, so is the rest
      of that pixel. */
  lemma NextPixel(i: int, q: int, len: int, pixels: int)
    requires i == 4 * q && len == 4 * pixels && i < len
    ensures q < pixels && i + 4 <= len
  {
  }

  /** `new Array(256).fill(0)`. */
  method EmptyHistogram() returns (h: array<int>)
    ensures fresh(h) && h[..] == Histogram([], 0)
  {
    h := new int[256];
    forall v | 0 <= v < h.Length {
      h[v] := 0;
    }
  }

  /** The loop body of step 1 for pixel `q`: gray it and count it. */
  method GrayPixel(data: array<int>, histogram: array<int>, i: nat, ghost d0: seq<int>, ghost q: nat)
    requires histogram != data && IsBytes(d0) && data.Length == |d0|
    requires i == 4 * q && i + 4 <= |d0|
    requires data[..] == GrayPass(d0, q)
    requires histogram[..] == Histogram(d0, q)
    modifies data, histogram
    ensures data[..] == GrayPass(d0, q + 1)
    ensures histogram[..] == Histogram(d0, q + 1)
  {
    GrayPassBeyond(d0, q, i);
    GrayPassBeyond(d0, q, i + 1);
    GrayPassBeyond(d0, q, i + 2);
    var gray := Gray(data[i], data[i + 1], data[i + 2]);
    Tally(histogram, gray);
    ghost var h1 := histogram[..];
    data[i] := gray;
    assert histogram[..] == h1;
  }

  /** `histogram[gray]++`. */
  method Tally(h: array<int>, x: int)
    requires 0 <= x < h.Length
    modifies h
    ensures h[..] == old(h[..])[x := old(h[x]) + 1]
  {
    h[x] := h[x] + 1;
  }

  // ---------------------------------------------------------------------
  // Step 2: the Otsu threshold
  // ---------------------------------------------------------------------

  /** Every bin holds a count. */
  predicate IsCounts(h: seq<int>) {
    forall v | 0 <= v < |h| :: h[v] >= 0
  }

  /** `wB` after bins `0 .. n - 1`: the number of pixels darker than `n`. */
  function Weight(h: seq<int>, n: nat): int
    requires n <= |h|
  {
    if n == 0 then 0 else Weight(h, n - 1) + h[n - 1]
  }

  /** `sumB` after bins `0 .. n - 1`: the sum of the levels of the pixels
      darker than `n`. */
  function Moment(h: seq<int>, n: nat): int
    requires n <= |h|
  {
    if n == 0 then 0 else Moment(h, n - 1) + (n - 1) * h[n - 1]
  }

  /** The loop reaches level `t`: no earlier level had a nonzero background
      weight and an empty foreground (the `break`). */
  predicate NoBreakBefore(h: seq<int>, total: int, t: nat)
    requires t <= |h|
  {
    forall n | 1 <= n <= t :: Weight(h, n) == 0 || total - Weight(h, n) != 0
  }

  /** Level `t` is scored: it is reached, and both classes have a nonzero
      weight, so both means are defined. */
  predicate Candidate(h: seq<int>, total: int, t: int) {
    0 <= t < |h| && NoBreakBefore(h, total, t)
    && Weight(h, t + 1) != 0 && total - Weight(h, t + 1) != 0
  }

  /** The between-class variance `wB * wF * (mB - mF)^2` of splitting after
      level `t`, in exact arithmetic. */
  function Between(h: seq<int>, total: int, t: int): real
    requires Candidate(h, total, t)
  {
    var wB := Weight(h, t + 1);
    var wF := total - wB;
    Variance(wB as real, wF as real, Moment(h, t + 1) as real / wB as real,
             (Moment(h, |h|) - Moment(h, t + 1)) as real / wF as real)
  }

  /** `wB * wF * (mB - mF)^2` for class weights `wB`, `wF` and class means
      `mB`, `mF`. */
  function Variance(wB: real, wF: real, mB: real, mF: real): real {
    wB * wF * (mB - mF) * (mB - mF)
  }

  /** Some scored level has a positive variance. */
  ghost predicate HasSplit(h: seq<int>, total: int) {
    exists t :: Candidate(h, total, t) && Between(h, total, t) > 0.0
  }

  /** What `preprocessImage` computes as the threshold: the lowest scored
      level of greatest between-class variance, when that variance is
      positive; 0 otherwise. */
  ghost predicate IsOtsu(h: seq<int>, total: int, th: int) {
    if HasSplit(h, total) then
      Candidate(h, total, th) && Between(h, total, th) > 0.0
      && (forall t | Candidate(h, total, t) :: Between(h, total, t) <= Between(h, total, th))
      && (forall t | 0 <= t < th && Candidate(h, total, t) :: Between(h, total, t) < Between(h, total, th))
    else th == 0
  }

  /** Step 2 of `preprocessImage`: the Otsu threshold of a 256-bin histogram
      of `totalPixels` pixels. */
  method OtsuThreshold(histogram: array<int>, totalPixels: int) returns (threshold: int)
    requires histogram.Length == 256 && IsCounts(histogram[..])
    ensures IsOtsu(histogram[..], totalPixels, threshold)
  {
    ghost var h := histogram[..];
    var sum := LevelSum(histogram);
    var sumB := 0;
    var wB := 0;
    var wF := 0;
    var mB: real := 0.0;
    var mF: real := 0.0;
    var max: real := 0.0;
    threshold := 0;
    var t := 0;
    while t < 256
      invariant 0 <= t <= 256 && wB == Weight(h, t) && sumB == Moment(h, t)
      invariant NoBreakBefore(h, totalPixels, t)
      invariant Best(h, totalPixels, t, threshold, max)
    {
      WeightStep(h, t);
      wB := wB + histogram[t];
      if wB == 0 {
        SkipEmptyLevel(h, totalPixels, t, threshold, max);
        t := t + 1;
        continue;
      }
      wF := totalPixels - wB;
      if wF == 0 {
        break;
      }
      sumB := sumB + t * histogram[t];
      var between;
      mB, mF, between := Score(wB, wF, sumB, sum);
      assert Candidate(h, totalPixels, t) && between == Between(h, totalPixels, t);
      ghost var th0, max0 := threshold, max;
      if between > max {
        max := between;
        threshold := t;
      }
      BestStep(h, totalPixels, t, th0, max0, threshold, max);
      t := t + 1;
    }
    OtsuDone(h, totalPixels, t, threshold, max);
  }

  /** The first loop of step 2: the sum of the levels of all pixels. */
  method LevelSum(histogram: array<int>) returns (sum: int)
    ensures sum == Moment(histogram[..], histogram.Length)
  {
    sum := 0;
    var i := 0;
    while i < histogram.Length
      invariant 0 <= i <= histogram.Length && sum == Moment(histogram[..], i)
    {
      sum := sum + i * histogram[i];
      i := i + 1;
    }
  }

  /** The class means and the between-class variance of one split. */
  method Score(wB: int, wF: int, sumB: int, sum: int) returns (mB: real, mF: real, between: real)
    requires wB != 0 && wF != 0
    ensures mB == sumB as real / wB as real && mF == (sum - sumB) as real / wF as real
    ensures between == Variance(wB as real, wF as real, mB, mF)
  {
    mB := sumB as real / wB as real;
    mF := (sum - sumB) as real / wF as real;
    between := wB as real * wF as real * (mB - mF) * (mB - mF);
  }

  /** The loop's record after scoring levels below `t`: `max` is the greatest
      variance seen (0 if none was positive) and `th` the lowest level that
      reached it. */
  ghost predicate Best(h: seq<int>, total: int, t: int, th: int, max: real)
    requires 0 <= t <= |h|
  {
    max >= 0.0
    && (forall u | 0 <= u < t && Candidate(h, total, u) :: Between(h, total, u) <= max)
    && (max == 0.0 ==> th == 0)
    && (max > 0.0 ==>
          0 <= th < t && Candidate(h, total, th) && Between(h, total, th) == max
          && forall u | 0 <= u < th && Candidate(h, total, u) :: Between(h, total, u) < max)
  }

  /** Adding bin `t` to the running sums. */
  lemma WeightStep(h: seq<int>, t: nat)
    requires t < |h|
    ensures Weight(h, t + 1) == Weight(h, t) + h[t]
    ensures Moment(h, t + 1) == Moment(h, t) + t * h[t]
  {
  }

  /** Counts add up to a count. */
  lemma {:induction false} WeightNonnegative(h: seq<int>, n: nat)
    requires IsCounts(h) && n <= |h|
    ensures Weight(h, n) >= 0
  {
    if n > 0 {
      WeightNonnegative(h, n - 1);
    }
  }

  /** The `continue` branch: with no pixels up to `t`, bin `t` is empty,
      level `t` is not scored, and the record carries over. */
  lemma SkipEmptyLevel(h: seq<int>, total: int, t: nat, th: int, max: real)
    requires IsCounts(h) && t < |h| && NoBreakBefore(h, total, t)
    requires Best(h, total, t, th, max) && Weight(h, t + 1) == 0
    ensures Moment(h, t + 1) == Moment(h, t)
    ensures NoBreakBefore(h, total, t + 1) && Best(h, total, t + 1, th, max)
  {
    WeightNonnegative(h, t);
    WeightStep(h, t);
    assert h[t] == 0;
    assert !Candidate(h, total, t);
  }

  /** Scoring level `t`: the record is updated exactly when `t` beats it. */
  lemma BestStep(h: seq<int>, total: int, t: nat, th0: int, max0: real, th: int, max: real)
    requires t < |h| && Best(h, total, t, th0, max0) && Candidate(h, total, t)
    requires if Between(h, total, t) > max0 then th == t && max == Between(h, total, t)
             else th == th0 && max == max0
    ensures NoBreakBefore(h, total, t + 1) && Best(h, total, t + 1, th, max)
  {
  }

  /** Where the loop stops (after level 255, or at the `break`), its record
      is the Otsu threshold. */
  lemma OtsuDone(h: seq<int>, total: int, t: nat, th: int, max: real)
    requires t <= |h| && NoBreakBefore(h, total, t) && Best(h, total, t, th, max)
    requires t == |h| || (Weight(h, t + 1) != 0 && total - Weight(h, t + 1) == 0)
    ensures IsOtsu(h, total, th)
  {
    forall u | t <= u < |h|
      ensures !Candidate(h, total, u)
    {
      if u > t {
        assert !(Weight(h, t + 1) == 0 || total - Weight(h, t + 1) != 0);
      }
    }
    if HasSplit(h, total) {
      var u :| Candidate(h, total, u) && Between(h, total, u) > 0.0;
      assert u < t;
    }
  }

  /** The running weight never decreases. */
  lemma {:induction false} WeightMonotone(h: seq<int>, m: nat, n: nat)
    requires IsCounts(h) && m <= n <= |h|
    ensures Weight(h, m) <= Weight(h, n)
    decreases n - m
  {
    if m < n {
      WeightMonotone(h, m, n - 1);
    }
  }

  /** Bins `m .. n - 1` hold some pixel exactly when their weight is
      positive. */
  lemma {:induction false} WeightPositive(h: seq<int>, m: nat, n: nat)
    requires IsCounts(h) && m <= n <= |h|
    ensures Weight(h, n) - Weight(h, m) > 0 <==> exists v | m <= v < n :: h[v] > 0
    decreases n - m
  {
    if m < n {
      WeightPositive(h, m, n - 1);
      WeightMonotone(h, m, n - 1);
      if h[n - 1] > 0 {
        assert Weight(h, n) - Weight(h, m) > 0;
      }
    }
  }

  /** The pixels darker than `n` have a mean level below `n`:
      `sumB <= (n - 1) * wB`. */
  lemma {:induction false} MomentBelow(h: seq<int>, n: nat)
    requires IsCounts(h) && 1 <= n <= |h|
    ensures Moment(h, n) <= (n - 1) * Weight(h, n)
  {
    if n > 1 {
      MomentBelow(h, n - 1);
      WeightNonnegative(h, n - 1);
      assert (n - 2) * Weight(h, n - 1) <= (n - 1) * Weight(h, n - 1);
    }
  }

  /** The pixels at level `n` or lighter have a mean level of at least `n`. */
  lemma {:induction false} MomentAbove(h: seq<int>, n: nat)
    requires IsCounts(h) && n <= |h|
    ensures Moment(h, |h|) - Moment(h, n) >= n * (Weight(h, |h|) - Weight(h, n))
    decreases |h| - n
  {
    if n < |h| {
      MomentAbove(h, n + 1);
      WeightMonotone(h, n + 1, |h|);
      WeightStep(h, n);
      assert n * (Weight(h, |h|) - Weight(h, n + 1)) <= (n + 1) * (Weight(h, |h|) - Weight(h, n + 1));
    }
  }

  /** For a histogram of `total` pixels, every scored level separates the
      two classes: the background mean is below the foreground mean, so the
      variance is positive. */
  lemma BetweenPositive(h: seq<int>, total: int, t: int)
    requires IsCounts(h) && total == Weight(h, |h|) && Candidate(h, total, t)
    ensures Between(h, total, t) > 0.0
  {
    var wB := Weight(h, t + 1);
    var wF := total - wB;
    WeightNonnegative(h, t + 1);
    WeightMonotone(h, t + 1, |h|);
    MomentBelow(h, t + 1);
    MomentAbove(h, t + 1);
    var sB := Moment(h, t + 1);
    var sF := Moment(h, |h|) - sB;
    MeansOrdered(sB, wB, sF, wF, t);
    VariancePositive(wB as real, wF as real, sB as real / wB as real, sF as real / wF as real);
  }

  /** A class of levels up to `t` has a lower mean than a class of levels
      above `t`. */
  lemma MeansOrdered(sB: int, wB: int, sF: int, wF: int, t: int)
    requires wB > 0 && sB <= t * wB && wF > 0 && sF >= (t + 1) * wF
    ensures sB as real / wB as real < sF as real / wF as real
  {
    var mB := sB as real / wB as real;
    var mF := sF as real / wF as real;
    assert mB * wB as real == sB as real;
    assert (t as real - mB) * wB as real >= 0.0;
    assert mF * wF as real == sF as real;
    assert (mF - (t + 1) as real) * wF as real >= 0.0;
  }

  /** Two nonempty classes with different means have a positive
      between-class variance. */
  lemma VariancePositive(wB: real, wF: real, mB: real, mF: real)
    requires wB > 0.0 && wF > 0.0 && mB < mF
    ensures Variance(wB, wF, mB, mF) > 0.0
  {
    ProductSign(wB, wF, 1.0, 1.0);
    ProductSign(wB * wF, mB - mF, 1.0, -1.0);
    ProductSign(wB * wF * (mB - mF), mB - mF, -1.0, -1.0);
  }

  /** The sign of a product is the product of the signs. */
  lemma ProductSign(x: real, y: real, sx: real, sy: real)
    requires (sx == 1.0 && x > 0.0) || (sx == -1.0 && x < 0.0)
    requires (sy == 1.0 && y > 0.0) || (sy == -1.0 && y < 0.0)
    ensures sx * sy == 1.0 ==> x * y > 0.0
    ensures sx * sy == -1.0 ==> x * y < 0.0
  {
  }

  /** For a histogram of `total` pixels, level `t` is scored exactly when
      some pixel is at level `t` or darker and some pixel is lighter. */
  lemma CandidateIffSplit(h: seq<int>, total: int, t: int)
    requires IsCounts(h) && total == Weight(h, |h|) && 0 <= t < |h|
    ensures Candidate(h, total, t) <==>
      (exists a | 0 <= a <= t :: h[a] > 0) && (exists b | t < b < |h| :: h[b] > 0)
  {
    WeightPositive(h, 0, t + 1);
    WeightPositive(h, t + 1, |h|);
    WeightNonnegative(h, t + 1);
    WeightMonotone(h, t + 1, |h|);
    if Weight(h, t + 1) != 0 && total - Weight(h, t + 1) != 0 {
      forall n | 1 <= n <= t
        ensures Weight(h, n) == 0 || total - Weight(h, n) != 0
      {
        WeightMonotone(h, n, t + 1);
      }
    }
  }

  /** The histogram has pixels at two different levels. */
  ghost predicate TwoLevels(h: seq<int>) {
    exists a, b | 0 <= a < b < |h| :: h[a] > 0 && h[b] > 0
  }

  /** The Otsu threshold of an image with two different gray levels has a
      pixel at or below it and a pixel above it, so binarising yields both
      black and white; an image of a single level gets threshold 0. */
  lemma OtsuSeparates(h: seq<int>, total: int, th: int)
    requires IsCounts(h) && total == Weight(h, |h|) && IsOtsu(h, total, th)
    ensures TwoLevels(h) ==>
      0 <= th < |h| && (exists a | 0 <= a <= th :: h[a] > 0) && (exists b | th < b < |h| :: h[b] > 0)
    ensures !TwoLevels(h) ==> th == 0
  {
    if TwoLevels(h) {
      var a, b :| 0 <= a < b < |h| && h[a] > 0 && h[b] > 0;
      CandidateIffSplit(h, total, a);
      BetweenPositive(h, total, a);
      assert HasSplit(h, total);
      CandidateIffSplit(h, total, th);
    } else {
      forall t | 0 <= t < |h|
        ensures !Candidate(h, total, t)
      {
        CandidateIffSplit(h, total, t);
      }
    }
  }

  /** The threshold is determined by the histogram. */
  lemma OtsuUnique(h: seq<int>, total: int, th1: int, th2: int)
    requires IsOtsu(h, total, th1) && IsOtsu(h, total, th2)
    ensures th1 == th2
  {
    if HasSplit(h, total) {
      assert Between(h, total, th1) == Between(h, total, th2);
    }
  }

  // ---------------------------------------------------------------------
  // Step 3: binarisation
  // ---------------------------------------------------------------------

  /** The colour pixel `q` gets: white when its stored gray level is above
      the threshold, black otherwise. */
  function Colour(d: seq<int>, th: int, q: nat): (c: int)
    requires 4 * q < |d|
    ensures c == 0 || c == 255
    ensures c == 255 <==> d[4 * q] > th
  {
    if d[4 * q] > th then 255 else 0
  }

  /** The buffer once binarisation has done its first `n` pixels: red, green
      and blue of each are set to the pixel's colour; alpha is untouched. */
  function BinPass(d: seq<int>, th: int, n: nat): (e: seq<int>)
    requires 4 * n <= |d|
    ensures |e| == |d|
  {
    if n == 0 then d
    else
      var q := n - 1;
      var c := Colour(d, th, q);
      BinPass(d, th, q)[4 * q := c][4 * q + 1 := c][4 * q + 2 := c]
  }

  /** Binarisation gives pixel `q` its colour in red, green and blue and
      keeps its alpha. */
  lemma {:induction false} BinPassAt(d: seq<int>, th: int, n: nat, q: nat)
    requires 4 * n <= |d| && q < n
    ensures BinPass(d, th, n)[4 * q] == Colour(d, th, q)
    ensures BinPass(d, th, n)[4 * q + 1] == Colour(d, th, q)
    ensures BinPass(d, th, n)[4 * q + 2] == Colour(d, th, q)
    ensures BinPass(d, th, n)[4 * q + 3] == d[4 * q + 3]
    decreases n
  {
    if q < n - 1 {
      BinPassAt(d, th, n - 1, q);
    } else {
      BinPassBeyond(d, th, q, 4 * q + 3);
    }
  }

  /** The pixels binarisation has not reached yet are untouched. */
  lemma {:induction false} BinPassBeyond(d: seq<int>, th: int, n: nat, k: int)
    requires 4 * n <= k < |d|
    ensures BinPass(d, th, n)[k] == d[k]
    decreases n
  {
    if n > 0 {
      BinPassBeyond(d, th, n - 1, k);
    }
  }

  /** Step 3 of `preprocessImage`: every pixel whose stored gray level is
      above the threshold becomes white, every other pixel black. */
  method Binarize(data: array<int>, threshold: int, ghost pixels: nat)
    requires data.Length == 4 * pixels
    modifies data
    ensures data[..] == BinPass(old(data[..]), threshold, pixels)
  {
    ghost var d0 := data[..];
    var i := 0;
    ghost var q := 0;
    while i < data.Length
      invariant 0 <= q <= pixels && i == 4 * q
      invariant data[..] == BinPass(d0, threshold, q)
      decreases data.Length - i
    {
      NextPixel(i, q, data.Length, pixels);
      BinPixel(data, threshold, i, d0, q);
      i := i + 4;
      q := q + 1;
    }
  }

  /** The loop body of step 3 for pixel `q`. */
  method BinPixel(data: array<int>, threshold: int, i: nat, ghost d0: seq<int>, ghost q: nat)
    requires data.Length == |d0| && i == 4 * q && i + 4 <= |d0|
    requires data[..] == BinPass(d0, threshold, q)
    modifies data
    ensures data[..] == BinPass(d0, threshold, q + 1)
  {
    BinPassBeyond(d0, threshold, q, i);
    var gray := data[i];
    var color := if gray > threshold then 255 else 0;
    data[i] := color;
    data[i + 1] := color;
    data[i + 2] := color;
  }

  // ---------------------------------------------------------------------
  // The whole pre-processing
  // ---------------------------------------------------------------------

  /** `preprocessImage` on the RGBA bytes of an image of `totalPixels`
      pixels: grayscale and histogram, Otsu threshold, binarisation. The
      threshold it logs is returned. */
  method PreprocessImage(data: array<int>, totalPixels: nat) returns (threshold: int)
    requires data.Length == 4 * totalPixels && IsBytes(data[..])
    modifies data
    ensures IsOtsu(Histogram(old(data[..]), totalPixels), totalPixels, threshold)
    ensures data[..] == BinPass(GrayPass(old(data[..]), totalPixels), threshold, totalPixels)
  {
    var histogram := GrayscaleAndHistogram(data, totalPixels);
    HistogramIsCounts(old(data[..]), totalPixels);
    threshold := OtsuThreshold(histogram, totalPixels);
    Binarize(data, threshold, totalPixels);
  }

  /** Every bin of the histogram is a count. */
  lemma HistogramIsCounts(d: seq<int>, n: nat)
    requires IsBytes(d) && 4 * n <= |d|
    ensures IsCounts(Histogram(d, n))
  {
    forall v | 0 <= v < 256
      ensures Histogram(d, n)[v] >= 0
    {
      HistogramCounts(d, n, v);
    }
  }

  /** One more pixel of level `x` adds one to the weight of every prefix
      that contains bin `x`. */
  lemma {:induction false} WeightOfTally(h: seq<int>, x: int, m: nat)
    requires 0 <= x < |h| && m <= |h|
    ensures Weight(h[x := h[x] + 1], m) == Weight(h, m) + (if x < m then 1 else 0)
  {
    if m > 0 {
      WeightOfTally(h, x, m - 1);
    }
  }

  /** The histogram counts every pixel once: `totalPixels` is its weight. */
  lemma {:induction false} HistogramTotal(d: seq<int>, n: nat)
    requires IsBytes(d) && 4 * n <= |d|
    ensures Weight(Histogram(d, n), 256) == n
  {
    if n == 0 {
      var z := Histogram(d, 0);
      assert forall m | 0 <= m <= 256 :: Weight(z, m) == 0 by {
        forall m | 0 <= m <= 256 ensures Weight(z, m) == 0 {
          ZeroWeight(z, m);
        }
      }
    } else {
      HistogramTotal(d, n - 1);
      WeightOfTally(Histogram(d, n - 1), GrayAt(d, n - 1), 256);
    }
  }

  lemma {:induction false} ZeroWeight(z: seq<int>, m: nat)
    requires m <= |z| && forall v | 0 <= v < |z| :: z[v] == 0
    ensures Weight(z, m) == 0
  {
    if m > 0 {
      ZeroWeight(z, m - 1);
    }
  }

  /** `s` holds `v` exactly when its count of `v` is positive. */
  lemma {:induction false} CountPositive(s: seq<int>, v: int)
    ensures Count(s, v) > 0 <==> exists k | 0 <= k < |s| :: s[k] == v
  {
    if s != [] {
      var init := s[..|s| - 1];
      CountPositive(init, v);
      if exists k | 0 <= k < |init| :: init[k] == v {
        var k :| 0 <= k < |init| && init[k] == v;
        assert s[k] == v;
      }
      if exists k | 0 <= k < |s| :: s[k] == v {
        var k :| 0 <= k < |s| && s[k] == v;
        if k < |init| {
          assert init[k] == v;
        }
      }
    }
  }

  /** Bin `v` of the histogram is nonempty exactly when some pixel has gray
      level `v`. */
  lemma LevelPresent(d: seq<int>, n: nat, v: int)
    requires IsBytes(d) && 4 * n <= |d| && 0 <= v < 256
    ensures Histogram(d, n)[v] > 0 <==> exists q | 0 <= q < n :: GrayAt(d, q) == v
  {
    HistogramCounts(d, n, v);
    CountPositive(Grays(d, n), v);
    forall q | 0 <= q < n
      ensures Grays(d, n)[q] == GrayAt(d, q)
    {
      GrayPassAt(d, n, q);
    }
  }

  /** What `preprocessImage` leaves in pixel `q`: red, green and blue are
      all white when the pixel's gray level is above the threshold and all
      black otherwise; alpha is the original alpha. */
  lemma PreprocessedPixel(d: seq<int>, th: int, n: nat, q: nat)
    requires IsBytes(d) && 4 * n <= |d| && q < n
    ensures var out := BinPass(GrayPass(d, n), th, n);
      && out[4 * q] == out[4 * q + 1] == out[4 * q + 2] == (if GrayAt(d, q) > th then 255 else 0)
      && out[4 * q + 3] == d[4 * q + 3]
  {
    GrayPassAt(d, n, q);
    BinPassAt(GrayPass(d, n), th, n, q);
  }

  /** The Otsu threshold of a histogram of `total` pixels never reaches the
      top level, so white pixels stay white. */
  lemma ThresholdBelowWhite(h: seq<int>, total: int, th: int)
    requires |h| == 256 && IsCounts(h) && total == Weight(h, |h|) && IsOtsu(h, total, th)
    ensures 0 <= th < 255
  {
    OtsuSeparates(h, total, th);
  }

  /** An image with pixels of two different gray levels comes out of
      `preprocessImage` with a black pixel and a white pixel. */
  lemma BlackAndWhite(d: seq<int>, n: nat, th: int, q1: nat, q2: nat)
    requires IsBytes(d) && |d| == 4 * n && IsOtsu(Histogram(d, n), n, th)
    requires q1 < n && q2 < n && GrayAt(d, q1) != GrayAt(d, q2)
    ensures exists q | 0 <= q < n :: GrayAt(d, q) <= th
    ensures exists q | 0 <= q < n :: GrayAt(d, q) > th
  {
    var h := Histogram(d, n);
    HistogramIsCounts(d, n);
    HistogramTotal(d, n);
    var a, b := GrayAt(d, q1), GrayAt(d, q2);
    if b < a {
      a, b := b, a;
    }
    LevelPresent(d, n, a);
    LevelPresent(d, n, b);
    assert TwoLevels(h);
    OtsuSeparates(h, n, th);
    var lo :| 0 <= lo <= th && h[lo] > 0;
    var hi :| th < hi < |h| && h[hi] > 0;
    LevelPresent(d, n, lo);
    LevelPresent(d, n, hi);
  }

  /** An image whose pixels all have one gray level gets threshold 0. */
  lemma UniformThreshold(d: seq<int>, n: nat, th: int)
    requires IsBytes(d) && |d| == 4 * n && IsOtsu(Histogram(d, n), n, th)
    requires forall q | 0 <= q < n :: GrayAt(d, q) == GrayAt(d, 0)
    ensures th == 0
  {
    var h := Histogram(d, n);
    HistogramIsCounts(d, n);
    HistogramTotal(d, n);
    if TwoLevels(h) {
      var a, b :| 0 <= a < b < |h| && h[a] > 0 && h[b] > 0;
      LevelPresent(d, n, a);
      LevelPresent(d, n, b);
      assert false;
    }
    OtsuSeparates(h, n, th);
  }

  /** Pixel `q` is black or white, with equal red, green and blue. */
  predicate IsBinaryPixel(d: seq<int>, q: nat)
    requires 4 * q + 4 <= |d|
  {
    d[4 * q] == d[4 * q + 1] == d[4 * q + 2] && (d[4 * q] == 0 || d[4 * q] == 255)
  }

  predicate IsBinaryImage(d: seq<int>, n: nat)
    requires 4 * n <= |d|
  {
    forall q | 0 <= q < n :: IsBinaryPixel(d, q)
  }

  /** Pre-processing an image that is already black and white changes
      nothing. */
  lemma PreprocessIdempotent(d: seq<int>, n: nat, th: int)
    requires IsBytes(d) && |d| == 4 * n && IsOtsu(Histogram(d, n), n, th)
    requires IsBinaryImage(d, n)
    ensures BinPass(GrayPass(d, n), th, n) == d
  {
    HistogramIsCounts(d, n);
    HistogramTotal(d, n);
    ThresholdBelowWhite(Histogram(d, n), n, th);
    BinaryImageKept(d, n, th);
  }

  /** Any threshold below 255 leaves a black-and-white image as it is. */
  lemma BinaryImageKept(d: seq<int>, n: nat, th: int)
    requires IsBytes(d) && |d| == 4 * n && IsBinaryImage(d, n) && 0 <= th < 255
    ensures BinPass(GrayPass(d, n), th, n) == d
  {
    var out := BinPass(GrayPass(d, n), th, n);
    forall k | 0 <= k < |d|
      ensures out[k] == d[k]
    {
      var q, r := PixelOf(k, n);
      BinaryPixelKept(d, th, n, q);
      if r == 0 {
        assert out[k] == out[4 * q];
      } else if r == 1 {
        assert out[k] == out[4 * q + 1];
      } else if r == 2 {
        assert out[k] == out[4 * q + 2];
      } else {
        assert out[k] == out[4 * q + 3];
      }
    }
  }

  /** A black or white pixel comes out of pre-processing with the colour it
      had. */
  lemma BinaryPixelKept(d: seq<int>, th: int, n: nat, q: nat)
    requires IsBytes(d) && 4 * n <= |d| && q < n && 0 <= th < 255
    requires IsBinaryPixel(d, q)
    ensures BinPass(GrayPass(d, n), th, n)[4 * q] == d[4 * q]
    ensures BinPass(GrayPass(d, n), th, n)[4 * q + 1] == d[4 * q + 1]
    ensures BinPass(GrayPass(d, n), th, n)[4 * q + 2] == d[4 * q + 2]
    ensures BinPass(GrayPass(d, n), th, n)[4 * q + 3] == d[4 * q + 3]
  {
    PreprocessedPixel(d, th, n, q);
    BinaryGray(d, q, th);
  }

  /** The gray level of a black or white pixel is on the same side of any
      threshold below 255 as the pixel itself. */
  lemma BinaryGray(d: seq<int>, q: nat, th: int)
    requires IsBytes(d) && 4 * q + 4 <= |d| && IsBinaryPixel(d, q) && 0 <= th < 255
    ensures (if GrayAt(d, q) > th then 255 else 0) == d[4 * q]
  {
    GrayOfNeutral(d[4 * q]);
  }

  /** Byte `k` is byte `r` of pixel `q`. */
  lemma PixelOf(k: int, n: nat) returns (q: nat, r: int)
    requires 0 <= k < 4 * n
    ensures q < n && 0 <= r < 4 && k == 4 * q + r
  {
    q := k / 4;
    r := k % 4;
  }

  // ---------------------------------------------------------------------
  // processImageWithOCR: the whole offline recognition, with its errors.
  // ---------------------------------------------------------------------

  /** The `Error` messages raised along the way, and any other message an
      `Error` from the recognition engine may carry. */
  datatype Message =
    | NotLoaded   // the engine's script is missing
    | NoContext   // the canvas has no 2D context
    | NoText      // the engine found no text
    | ParseFailed // the parser found no name or no ID number
    | EngineMessage(text: string)

  /** The text of each message. */
  function MessageText(m: Message): string {
    match m
    case NotLoaded => "Tesseract.js library not loaded. Cannot perform OCR."
    case NoContext => "Could not get canvas context"
    case NoText => "Tesseract could not extract any text. The image may be too blurry or low quality."
    case ParseFailed => "Failed to parse essential information (like name or ID number) from the extracted text. The ID card format might be unrecognized or the image quality is too low."
    case EngineMessage(text) => text
  }

  /** A value thrown inside the recognition: an `Error` with its message, or
      something that is not an `Error` (the image's `error` event, or
      whatever else the recognition engine rejects with). */
  datatype Thrown = ErrorValue(message: Message) | NonError

  /** How an awaited step settled. */
  datatype Outcome<T> = Done(value: T) | Threw(thrown: Thrown)

  /** How `processImageWithOCR` rejects: with a new `Error` wrapping the
      message of the `Error` caught, or with the fixed message for anything
      else. */
  datatype Rejection = Wrapped(inner: Message) | Unknown

  /** The message of the `Error` the rejection carries. */
  function RejectionText(e: Rejection): (text: string)
    ensures e.Wrapped? ==> text == "Offline OCR Error: " + MessageText(e.inner)
  {
    match e
    case Wrapped(m) => "Offline OCR Error: " + MessageText(m)
    case Unknown => "An unknown error occurred during offline image processing."
  }

  /** How `processImageWithOCR` settles: with the parsed fields, or rejected. */
  datatype OcrResult = Recognised(card: ParsedCard) | Rejected(error: Rejection)

  /** The parsed record has the two fields a badge cannot do without: a name
      and an ID number, neither empty nor the "Not Found" placeholder. */
  predicate IsComplete(card: ParsedCard) {
    && card.name != "" && card.idNumber != ""
    && card.idNumber != "Not Found" && card.name != "Not Found"
  }

  /** How `preprocessImage` settles before any pixel is touched: the image
      fails to load (its `error` event is passed on as is), or the canvas has
      no 2D context; otherwise it resolves with the image `PreprocessImage`
      produces. */
  function PreprocessFailure(imageLoads: bool, hasContext: bool): Option<Thrown> {
    if !imageLoads then Some(NonError)
    else if !hasContext then Some(ErrorValue(NoContext))
    else None
  }

  /** The `try` block: each step in order, the first throw ending it.
      `recognition` is what the recognition engine settles with on the
      pre-processed image (the engine is not part of this model), and
      `parse` is the badge-text parser. */
  function Attempt(tesseractLoaded: bool, imageLoads: bool, hasContext: bool, recognition: Outcome<string>,
                   parse: string -> ParsedCard): Outcome<ParsedCard> {
    if !tesseractLoaded then Threw(ErrorValue(NotLoaded))
    else if PreprocessFailure(imageLoads, hasContext).Some? then Threw(PreprocessFailure(imageLoads, hasContext).value)
    else match recognition
      case Threw(t) => Threw(t)
      case Done(text) =>
        if text == "" then Threw(ErrorValue(NoText))
        else
          var card := parse(text);
          if !IsComplete(card) then Threw(ErrorValue(ParseFailed)) else Done(card)
  }

  /** The `try` block followed by the `catch` that rewraps every `Error` and
      replaces anything else by the unknown error. */
  function Recognise(tesseractLoaded: bool, imageLoads: bool, hasContext: bool, recognition: Outcome<string>,
                     parse: string -> ParsedCard): OcrResult {
    match Attempt(tesseractLoaded, imageLoads, hasContext, recognition, parse)
    case Done(card) => Recognised(card)
    case Threw(ErrorValue(m)) => Rejected(Wrapped(m))
    case Threw(NonError) => Rejected(Unknown)
  }

  /** `processImageWithOCR`: recognition with the badge-text parser. */
  function ProcessImageWithOcr(tesseractLoaded: bool, imageLoads: bool, hasContext: bool, recognition: Outcome<string>): OcrResult {
    Recognise(tesseractLoaded, imageLoads, hasContext, recognition, OcrParser.Parse)
  }

  /** Recognition succeeds exactly when every step does: the engine is
      loaded, the image loads and has a canvas, the engine returns some text
      and the parser finds a name and an ID number in it; the record is then
      the parser's. */
  lemma OcrSucceeds(tesseractLoaded: bool, imageLoads: bool, hasContext: bool, recognition: Outcome<string>,
                    parse: string -> ParsedCard)
    ensures var r := Recognise(tesseractLoaded, imageLoads, hasContext, recognition, parse);
      r.Recognised? <==>
        && tesseractLoaded && imageLoads && hasContext
        && recognition.Done? && recognition.value != ""
        && IsComplete(parse(recognition.value))
    ensures var r := Recognise(tesseractLoaded, imageLoads, hasContext, recognition, parse);
      r.Recognised? ==> r.card == parse(recognition.value) && IsComplete(r.card)
  {
  }

  /** Every rejection's message starts with "Offline OCR Error: " or is the
      fixed unknown-error message. */
  lemma OcrRejectionText(e: Rejection)
    ensures var text := RejectionText(e);
      || text == "An unknown error occurred during offline image processing."
      || (|text| >= 19 && text[..19] == "Offline OCR Error: ")
  {
  }

  /** Which rejection each failing step leaves: a missing engine is reported
      first; a failed image load surfaces as the unknown error, since the
      load event is not an `Error`; a missing canvas, a blank text and an
      incomplete record get their own messages; an engine failure keeps its
      message when it is an `Error`. */
  lemma OcrFailures(tesseractLoaded: bool, imageLoads: bool, hasContext: bool, recognition: Outcome<string>,
                    parse: string -> ParsedCard)
    ensures var r := Recognise(tesseractLoaded, imageLoads, hasContext, recognition, parse);
      && (!tesseractLoaded ==> r == Rejected(Wrapped(NotLoaded)))
      && (tesseractLoaded && !imageLoads ==> r == Rejected(Unknown))
      && (tesseractLoaded && imageLoads && !hasContext ==> r == Rejected(Wrapped(NoContext)))
      && (tesseractLoaded && imageLoads && hasContext && recognition == Done("") ==>
            r == Rejected(Wrapped(NoText)))
      && (tesseractLoaded && imageLoads && hasContext && recognition.Done? && recognition.value != ""
          && !IsComplete(parse(recognition.value)) ==>
            r == Rejected(Wrapped(ParseFailed)))
      && (tesseractLoaded && imageLoads && hasContext && recognition.Threw? ==>
            r == Rejected(if recognition.thrown.NonError? then Unknown else Wrapped(recognition.thrown.message)))
  {
  }
}
