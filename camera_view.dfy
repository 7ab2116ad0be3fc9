/** The camera view's auto-capture logic (components/CameraView.tsx): a test
    for a card in the middle of a frame, a difference between two frames, and
    the stability counter that fires a capture once the card has been held
    still long enough. Frames are RGBA byte buffers that the view only reads,
    so they are values here; a NaN result is `None`. */
module CameraView {
  import opened Types

  /** A frame as `getImageData` returns it: `width * height` pixels of four
      bytes each (red, green, blue, alpha), row by row. */
  datatype Frame = Frame(data: seq<int>, width: nat, height: nat)

  predicate IsFrame(f: Frame) {
    |f.data| == 4 * (f.width * f.height)
  }

  function Abs(x: int): nat {
    if x < 0 then -x else x
  }

  // ---------------------------------------------------------------------
  // calculateFrameDifference
  // ---------------------------------------------------------------------

  /** The sum of `|a[i] - b[i]|` over the sampled byte indices from `i` on
      (every 40th byte, the red byte of every 10th pixel); `None` when a
      sampled index lies beyond `b`, where JavaScript reads `undefined` and
      the sum becomes NaN. */
  function DiffFrom(a: seq<int>, b: seq<int>, i: nat): (s: Option<int>)
    ensures s.Some? ==> s.value >= 0
    decreases |a| - i
  {
    if i >= |a| then Some(0)
    else if i >= |b| then None
    else match DiffFrom(a, b, i + 40)
      case None => None
      case Some(rest) => Some(Abs(a[i] - b[i]) + rest)
  }

  /** Addition where NaN (`None`) absorbs everything. */
  function Plus(x: Option<int>, y: Option<int>): Option<int> {
    if x.Some? && y.Some? then Some(x.value + y.value) else None
  }

  /** `calculateFrameDifference(frame1, frame2)`: the sampled sum divided by
      `length / 40` (a fraction when the length is not a multiple of 40);
      an empty first frame gives 0 / 0, NaN. */
  function FrameDifference(a: seq<int>, b: seq<int>): Option<real> {
    if |a| == 0 then None
    else match DiffFrom(a, b, 0)
      case None => None
      case Some(s) => Some(s as real / (|a| as real / 40.0))
  }

  /** The accumulator loop of `calculateFrameDifference`. */
  method CalculateFrameDifference(data1: seq<int>, data2: seq<int>) returns (result: Option<real>)
    ensures result == FrameDifference(data1, data2)
  {
    var diff: Option<int> := Some(0);
    var i := 0;
    while i < |data1|
      invariant Plus(diff, DiffFrom(data1, data2, i)) == DiffFrom(data1, data2, 0)
      decreases |data1| - i
    {
      if i < |data2| {
        diff := Plus(diff, Some(Abs(data1[i] - data2[i])));
      } else {
        diff := None;
      }
      i := i + 40;
    }
    if |data1| == 0 || diff.None? {
      result := None;
    } else {
      result := Some(diff.value as real / (|data1| as real / 40.0));
    }
  }

  /** The difference is never negative. */
  lemma DifferenceNonnegative(a: seq<int>, b: seq<int>)
    ensures FrameDifference(a, b).Some? ==> FrameDifference(a, b).value >= 0.0
  {
    if |a| > 0 && DiffFrom(a, b, 0).Some? {
      var s := DiffFrom(a, b, 0).value;
      var len := |a| as real / 40.0;
      assert len > 0.0;
      assert s as real >= 0.0;
      QuotientNonnegative(s as real, len);
    }
  }

  lemma QuotientNonnegative(x: real, y: real)
    requires x >= 0.0 && y > 0.0
    ensures x / y >= 0.0
  {
  }

  lemma {:induction false} DiffFromSame(a: seq<int>, i: nat)
    ensures DiffFrom(a, a, i) == Some(0)
    decreases |a| - i
  {
    if i < |a| {
      DiffFromSame(a, i + 40);
    }
  }

  /** A frame compared with itself differs by exactly 0. */
  lemma DifferenceOfSame(a: seq<int>)
    requires |a| > 0
    ensures FrameDifference(a, a) == Some(0.0)
  {
    DiffFromSame(a, 0);
  }

  lemma {:induction false} DiffFromSymmetric(a: seq<int>, b: seq<int>, i: nat)
    requires |a| == |b|
    ensures DiffFrom(a, b, i) == DiffFrom(b, a, i)
    decreases |a| - i
  {
    if i < |a| {
      DiffFromSymmetric(a, b, i + 40);
    }
  }

  /** For frames of one size the difference does not depend on their order. */
  lemma DifferenceSymmetric(a: seq<int>, b: seq<int>)
    requires |a| == |b|
    ensures FrameDifference(a, b) == FrameDifference(b, a)
  {
    DiffFromSymmetric(a, b, 0);
  }

  /** The sum is a number exactly when the last sampled index of `a` (the
      largest multiple of 40 below `|a|`, counting from `i`) is inside `b`. */
  lemma {:induction false} DiffFromDefined(a: seq<int>, b: seq<int>, i: nat)
    ensures DiffFrom(a, b, i).Some? <==> (i >= |a| || i + 40 * ((|a| - 1 - i) / 40) < |b|)
    decreases |a| - i
  {
    if i < |a| {
      DiffFromDefined(a, b, i + 40);
      if i + 40 < |a| {
        assert (|a| - 1 - i) / 40 == 1 + (|a| - 1 - (i + 40)) / 40;
      } else {
        assert (|a| - 1 - i) / 40 == 0;
      }
    }
  }

  /** The difference is NaN exactly when the first frame is empty or the
      second is too short to hold the first one's last sampled byte; frames
      of one size always give a number, unless they are empty. */
  lemma DifferenceDefined(a: seq<int>, b: seq<int>)
    ensures FrameDifference(a, b).Some? <==> (|a| > 0 && 40 * ((|a| - 1) / 40) < |b|)
    ensures |a| == |b| ==> (FrameDifference(a, b).Some? <==> |a| > 0)
  {
    DiffFromDefined(a, b, 0);
  }

  // ---------------------------------------------------------------------
  // detectCard
  // ---------------------------------------------------------------------

  /** The brightness of pixel `k`: the plain mean of its red, green and blue. */
  function Brightness(d: seq<int>, k: nat): real
    requires 4 * k + 4 <= |d|
  {
    (d[4 * k] + d[4 * k + 1] + d[4 * k + 2]) as real / 3.0
  }

  /** Pixel `(x, y)` of a `w` by `h` frame is pixel `y * w + x`, inside the
      buffer. */
  lemma InFrame(w: nat, h: nat, x: nat, y: nat)
    requires x < w && y < h
    ensures 4 * (y * w + x) + 4 <= 4 * (w * h)
  {
    assert y * w + x < (y + 1) * w;
    MulLeft(y + 1, h, w);
    assert (y + 1) * w <= h * w;
  }

  lemma MulLeft(a: nat, b: nat, c: nat)
    requires a <= b
    ensures a * c <= b * c
  {
  }

  /** The number of sampled positions `lo, lo + 2, ...` below `hi`. */
  function Steps(lo: int, hi: int): (n: nat)
    decreases hi - lo
  {
    if lo >= hi then 0 else 1 + Steps(lo + 2, hi)
  }

  lemma {:induction false} StepsCount(lo: int, hi: int)
    ensures Steps(lo, hi) == if lo >= hi then 0 else (hi - lo + 1) / 2
    decreases hi - lo
  {
    if lo < hi {
      StepsCount(lo + 2, hi);
    }
  }

  /** The summed brightness of the sampled pixels `x, x + 2, ...` below
      `xEnd` in row `y`. */
  function RowFrom(d: seq<int>, w: nat, h: nat, y: nat, x: nat, xEnd: nat): real
    requires |d| == 4 * (w * h) && y < h && xEnd <= w
    decreases xEnd - x
  {
    if x >= xEnd then 0.0
    else
      InFrame(w, h, x, y);
      Brightness(d, y * w + x) + RowFrom(d, w, h, y, x + 2, xEnd)
  }

  /** The summed brightness of the sampled rows `y, y + 2, ...` below `yEnd`,
      each sampled from `xStart` to `xEnd`. */
  function RegionFrom(d: seq<int>, w: nat, h: nat, y: nat, yEnd: nat, xStart: nat, xEnd: nat): real
    requires |d| == 4 * (w * h) && yEnd <= h && xEnd <= w
    decreases yEnd - y
  {
    if y >= yEnd then 0.0
    else RowFrom(d, w, h, y, xStart, xEnd) + RegionFrom(d, w, h, y + 2, yEnd, xStart, xEnd)
  }

  /** The sampled window starts a quarter of the way in along each axis
      (`Math.floor(width * 0.25)`) and spans half of each axis
      (`Math.floor(width * 0.5)`). */
  function Start(size: nat): nat { size / 4 }
  function End(size: nat): nat { size / 4 + size / 2 }

  /** The summed brightness of the window's samples. */
  function WindowSum(f: Frame): real
    requires IsFrame(f)
  {
    RegionFrom(f.data, f.width, f.height, Start(f.height), End(f.height), Start(f.width), End(f.width))
  }

  /** The number of pixels sampled in rows `y, y + 2, ...` below `yEnd`,
      `cols` of them per row. */
  function CountFrom(y: int, yEnd: int, cols: nat): nat
    decreases yEnd - y
  {
    if y >= yEnd then 0 else cols + CountFrom(y + 2, yEnd, cols)
  }

  /** How many pixels the window samples. */
  function SampleCount(f: Frame): nat {
    CountFrom(Start(f.height), End(f.height), Steps(Start(f.width), End(f.width)))
  }

  /** The mean brightness of the sampled pixels; `None` (NaN) when none is
      sampled. */
  function MeanBrightness(f: Frame): Option<real>
    requires IsFrame(f)
  {
    if SampleCount(f) == 0 then None
    else Some(WindowSum(f) / SampleCount(f) as real)
  }

  /** `detectCard`: the mean is a number strictly between 100 and 240. */
  predicate DetectsCard(f: Frame)
    requires IsFrame(f)
  {
    MeanBrightness(f).Some? && 100.0 < MeanBrightness(f).value < 240.0
  }

  /** The two accumulator loops of `detectCard`. */
  method DetectCard(imageData: Frame) returns (detected: bool)
    requires IsFrame(imageData)
    ensures detected == DetectsCard(imageData)
  {
    var width, height := imageData.width, imageData.height;
    var centerX, centerY := width / 4, height / 4;
    var centerWidth, centerHeight := width / 2, height / 2;
    var brightness, pixelCount := SampleWindow(imageData.data, width, height, centerX, centerX + centerWidth,
                                               centerY, centerY + centerHeight);
    if pixelCount == 0 {
      detected := false;
    } else {
      var avgBrightness := brightness / pixelCount as real;
      detected := avgBrightness > 100.0 && avgBrightness < 240.0;
    }
  }

  /** The outer loop of `detectCard`: the sum and the count over the sampled
      rows of the window. */
  method SampleWindow(data: seq<int>, width: nat, height: nat, xStart: nat, xEnd: nat, yStart: nat, yEnd: nat)
    returns (brightness: real, pixelCount: nat)
    requires |data| == 4 * (width * height) && xEnd <= width && yEnd <= height
    ensures brightness == RegionFrom(data, width, height, yStart, yEnd, xStart, xEnd)
    ensures pixelCount == CountFrom(yStart, yEnd, Steps(xStart, xEnd))
  {
    brightness, pixelCount := 0.0, 0;
    var y := yStart;
    while y < yEnd
      invariant brightness + RegionFrom(data, width, height, y, yEnd, xStart, xEnd)
                == RegionFrom(data, width, height, yStart, yEnd, xStart, xEnd)
      invariant pixelCount + CountFrom(y, yEnd, Steps(xStart, xEnd)) == CountFrom(yStart, yEnd, Steps(xStart, xEnd))
      decreases yEnd as int - y
    {
      brightness, pixelCount := SampleRow(data, width, height, y, xStart, xEnd, brightness, pixelCount);
      y := y + 2;
    }
  }

  /** The inner loop of `detectCard`: one sampled row added to the running
      sum and count. */
  method SampleRow(data: seq<int>, width: nat, height: nat, y: nat, xStart: nat, xEnd: nat,
                   brightness0: real, pixelCount0: nat)
    returns (brightness: real, pixelCount: nat)
    requires |data| == 4 * (width * height) && y < height && xEnd <= width
    ensures brightness == brightness0 + RowFrom(data, width, height, y, xStart, xEnd)
    ensures pixelCount == pixelCount0 + Steps(xStart, xEnd)
  {
    brightness, pixelCount := brightness0, pixelCount0;
    var x := xStart;
    while x < xEnd
      invariant brightness + RowFrom(data, width, height, y, x, xEnd)
                == brightness0 + RowFrom(data, width, height, y, xStart, xEnd)
      invariant pixelCount + Steps(x, xEnd) == pixelCount0 + Steps(xStart, xEnd)
      decreases xEnd as int - x
    {
      InFrame(width, height, x, y);
      var i := (y * width + x) * 4;
      var r, g, b := data[i], data[i + 1], data[i + 2];
      brightness := brightness + (r + g + b) as real / 3.0;
      pixelCount := pixelCount + 1;
      x := x + 2;
    }
  }

  lemma RowCount(y: int, yEnd: int, cols: nat)
    requires y < yEnd
    ensures Steps(y, yEnd) * cols == cols + Steps(y + 2, yEnd) * cols
  {
    assert Steps(y, yEnd) == 1 + Steps(y + 2, yEnd);
  }

  /** The window samples every other column and every other row of the
      central half: `ceil(floor(w / 2) / 2)` by `ceil(floor(h / 2) / 2)`
      pixels. */
  lemma SampleCountIs(f: Frame)
    ensures SampleCount(f) == ((f.height / 2 + 1) / 2) * ((f.width / 2 + 1) / 2)
  {
    CountIsProduct(Start(f.height), End(f.height), Steps(Start(f.width), End(f.width)));
    WindowSteps(f.width);
    WindowSteps(f.height);
  }

  lemma {:induction false} CountIsProduct(y: int, yEnd: int, cols: nat)
    ensures CountFrom(y, yEnd, cols) == Steps(y, yEnd) * cols
    decreases yEnd - y
  {
    if y < yEnd {
      CountIsProduct(y + 2, yEnd, cols);
      RowCount(y, yEnd, cols);
    }
  }

  lemma WindowSteps(size: nat)
    ensures Steps(Start(size), End(size)) == (size / 2 + 1) / 2
  {
    StepsCount(Start(size), End(size));
  }

  /** A frame narrower or lower than two pixels samples nothing, and the NaN
      mean never reads as a card. */
  lemma TinyFrameNoCard(f: Frame)
    requires IsFrame(f) && (f.width < 2 || f.height < 2)
    ensures !DetectsCard(f)
  {
    SampleCountIs(f);
    if f.width < 2 {
      assert (f.width / 2 + 1) / 2 == 0;
    } else {
      assert (f.height / 2 + 1) / 2 == 0;
    }
    assert SampleCount(f) == 0;
  }

  /** Every pixel of `d` shows gray level `v`. */
  predicate PixelIs(d: seq<int>, k: nat, v: int)
    requires 4 * k + 4 <= |d|
  {
    d[4 * k] == v && d[4 * k + 1] == v && d[4 * k + 2] == v
  }

  predicate IsUniform(f: Frame, v: int)
    requires IsFrame(f)
  {
    forall k: nat | k < f.width * f.height :: PixelIs(f.data, k, v)
  }

  /** `n` samples of level `v` sum to `n * v`. */
  function Times(n: nat, v: real): real {
    n as real * v
  }

  lemma {:induction false} UniformRow(d: seq<int>, w: nat, h: nat, y: nat, x: nat, xEnd: nat, v: int)
    requires |d| == 4 * (w * h) && y < h && xEnd <= w
    requires forall k: nat | k < w * h :: PixelIs(d, k, v)
    ensures RowFrom(d, w, h, y, x, xEnd) == Times(Steps(x, xEnd), v as real)
    decreases xEnd - x
  {
    if x < xEnd {
      InFrame(w, h, x, y);
      assert PixelIs(d, y * w + x, v);
      UniformRow(d, w, h, y, x + 2, xEnd, v);
      TimesSum(1, Steps(x + 2, xEnd), v as real);
    }
  }

  lemma {:induction false} UniformRegion(d: seq<int>, w: nat, h: nat, y: nat, yEnd: nat, xStart: nat, xEnd: nat, v: int)
    requires |d| == 4 * (w * h) && yEnd <= h && xEnd <= w
    requires forall k: nat | k < w * h :: PixelIs(d, k, v)
    ensures RegionFrom(d, w, h, y, yEnd, xStart, xEnd) == Times(CountFrom(y, yEnd, Steps(xStart, xEnd)), v as real)
    decreases yEnd - y
  {
    if y < yEnd {
      UniformRow(d, w, h, y, xStart, xEnd, v);
      UniformRegion(d, w, h, y + 2, yEnd, xStart, xEnd, v);
      TimesSum(Steps(xStart, xEnd), CountFrom(y + 2, yEnd, Steps(xStart, xEnd)), v as real);
    }
  }

  lemma TimesSum(a: nat, b: nat, v: real)
    ensures Times(a + b, v) == Times(a, v) + Times(b, v)
  {
  }

  /** A frame of one gray level `v`, at least two pixels each way, reads as a
      card exactly when `100 < v < 240`: the bounds are exclusive. */
  lemma UniformFrameDetection(f: Frame, v: int)
    requires IsFrame(f) && IsUniform(f, v) && f.width >= 2 && f.height >= 2
    ensures DetectsCard(f) <==> 100 < v < 240
  {
    UniformMean(f, v);
  }

  /** The mean brightness of a frame of one gray level is that level. */
  lemma UniformMean(f: Frame, v: int)
    requires IsFrame(f) && IsUniform(f, v) && f.width >= 2 && f.height >= 2
    ensures MeanBrightness(f) == Some(v as real)
  {
    UniformWindow(f, v);
    WindowSampled(f);
    MeanOf(f, v as real);
  }

  /** A window whose samples sum to `count * v` has mean `v`. */
  lemma MeanOf(f: Frame, v: real)
    requires IsFrame(f) && SampleCount(f) > 0 && WindowSum(f) == Times(SampleCount(f), v)
    ensures MeanBrightness(f) == Some(v)
  {
    MeanOfTimes(SampleCount(f), v);
  }

  /** Every sample of a uniform frame contributes its gray level. */
  lemma UniformWindow(f: Frame, v: int)
    requires IsFrame(f) && IsUniform(f, v)
    ensures WindowSum(f) == Times(SampleCount(f), v as real)
  {
    WindowInside(f.width);
    WindowInside(f.height);
    UniformRegion(f.data, f.width, f.height, Start(f.height), End(f.height), Start(f.width), End(f.width), v);
  }

  lemma WindowInside(size: nat)
    ensures Start(size) <= End(size) <= size
  {
  }

  /** A frame at least two pixels each way samples at least one pixel. */
  lemma WindowSampled(f: Frame)
    requires f.width >= 2 && f.height >= 2
    ensures SampleCount(f) > 0
  {
    assert Start(f.width) < End(f.width);
    assert Start(f.height) < End(f.height);
  }

  lemma MeanOfTimes(n: nat, v: real)
    requires n > 0
    ensures Times(n, v) / n as real == v
  {
  }

  // ---------------------------------------------------------------------
  // The stability counter of scanFrame
  // ---------------------------------------------------------------------

  /** The frames a steady card must hold still for before a capture. */
  const StableFrames := 15

  /** The largest mean difference that still counts as "still". */
  const StillLimit := 5.0

  /** What `scanFrame` keeps between frames: whether the last frame showed a
      card, the stability counter, and the last frame with a card. */
  datatype Scanner = Scanner(cardDetected: bool, counter: int, lastFrame: Option<Frame>)

  /** The state on mounting, and after the cleanup on unmounting. */
  function Reset(): Scanner {
    Scanner(false, 0, None)
  }

  /** Whether the new frame is still with respect to the stored one. */
  predicate IsStill(f: Frame, last: Frame) {
    var diff := FrameDifference(f.data, last.data);
    diff.Some? && diff.value < StillLimit
  }

  /** One evaluated frame: the new state, and whether a capture fired. A
      frame without a card clears the counter and the stored frame; a frame
      with a card is stored, and when there was a stored frame it either
      raises the counter, fires a capture (the counter had reached 15) or,
      when the difference is 5 or more (or NaN), clears the counter. */
  function Step(s: Scanner, f: Frame): (Scanner, bool)
    requires IsFrame(f)
  {
    if !DetectsCard(f) then (Scanner(false, 0, None), false)
    else if s.lastFrame.None? then (Scanner(true, s.counter, Some(f)), false)
    else if !IsStill(f, s.lastFrame.value) then (Scanner(true, 0, Some(f)), false)
    else if s.counter >= StableFrames then (Scanner(true, 0, Some(f)), true)
    else (Scanner(true, s.counter + 1, Some(f)), false)
  }

  /** The counter stays within 0..15. */
  predicate CounterInRange(s: Scanner) {
    0 <= s.counter <= StableFrames
  }

  /** Every step keeps the counter within 0..15, and a capture fires only
      from a counter of 15 and leaves it at 0. */
  lemma StepKeepsRange(s: Scanner, f: Frame)
    requires IsFrame(f) && CounterInRange(s)
    ensures CounterInRange(Step(s, f).0)
    ensures Step(s, f).1 ==> s.counter == StableFrames && Step(s, f).0.counter == 0
  {
  }

  /** The frames that show a card, all of them. */
  predicate AllFrames(frames: seq<Frame>) {
    forall i | 0 <= i < |frames| :: IsFrame(frames[i])
  }

  /** The state after a run of frames, and how many captures fired. */
  function Run(s: Scanner, frames: seq<Frame>): (Scanner, nat)
    requires AllFrames(frames)
    decreases |frames|
  {
    if frames == [] then (s, 0)
    else
      var (s1, fired) := Step(s, frames[0]);
      var (s2, n) := Run(s1, frames[1..]);
      (s2, n + if fired then 1 else 0)
  }

  /** `n` copies of one frame. */
  function Repeat(f: Frame, n: nat): (frames: seq<Frame>)
    ensures |frames| == n && forall i | 0 <= i < n :: frames[i] == f
  {
    seq(n, i => f)
  }

  /** Holding one card frame still from a state with that frame stored and
      counter `c <= 15`: `k` more frames raise the counter to `c + k` as long
      as that stays within 15, with no capture. */
  lemma {:induction false} HoldRaises(f: Frame, c: nat, k: nat)
    requires IsFrame(f) && DetectsCard(f) && |f.data| > 0 && c + k <= StableFrames
    ensures Run(Scanner(true, c, Some(f)), Repeat(f, k)) == (Scanner(true, c + k, Some(f)), 0)
    decreases k
  {
    if k > 0 {
      DifferenceOfSame(f.data);
      assert Step(Scanner(true, c, Some(f)), f) == (Scanner(true, c + 1, Some(f)), false);
      assert Repeat(f, k)[1..] == Repeat(f, k - 1);
      HoldRaises(f, c + 1, k - 1);
    }
  }

  /** The auto-capture: from the reset state, the first frame of a steady
      card is only stored, the next fifteen raise the counter to 15, and the
      seventeenth fires the one capture and puts the counter back to 0. */
  lemma SeventeenthFrameCaptures(f: Frame)
    requires IsFrame(f) && DetectsCard(f) && |f.data| > 0
    ensures Run(Reset(), Repeat(f, 16)) == (Scanner(true, 15, Some(f)), 0)
    ensures Run(Reset(), Repeat(f, 17)) == (Scanner(true, 0, Some(f)), 1)
  {
    DifferenceOfSame(f.data);
    var first := Scanner(true, 0, Some(f));
    assert Step(Reset(), f) == (first, false);
    assert Repeat(f, 16)[1..] == Repeat(f, 15);
    HoldRaises(f, 0, 15);
    assert Run(Reset(), Repeat(f, 16)) == (Scanner(true, 15, Some(f)), 0);
    RunSnoc(Reset(), Repeat(f, 16), f);
    assert Repeat(f, 16) + [f] == Repeat(f, 17);
  }

  /** Running one more frame at the end. */
  lemma {:induction false} RunSnoc(s: Scanner, frames: seq<Frame>, f: Frame)
    requires AllFrames(frames) && IsFrame(f)
    ensures AllFrames(frames + [f])
    ensures var (s1, n) := Run(s, frames);
      Run(s, frames + [f]) == (Step(s1, f).0, n + if Step(s1, f).1 then 1 else 0)
    decreases |frames|
  {
    if frames != [] {
      assert (frames + [f])[1..] == frames[1..] + [f];
      RunSnoc(Step(s, frames[0]).0, frames[1..], f);
    }
  }

  /** A frame without a card always clears the counter and the stored
      frame. */
  lemma NoCardResets(s: Scanner, f: Frame)
    requires IsFrame(f) && !DetectsCard(f)
    ensures Step(s, f) == (Reset(), false)
  {
  }

  // ---------------------------------------------------------------------
  // The component's mutable state
  // ---------------------------------------------------------------------

  /** The `isCardDetected` and `stabilityCounter` state and the
      `lastFrameData` reference of the camera view. */
  class FrameEvaluator {
    var isCardDetected: bool
    var stabilityCounter: int
    var lastFrameData: Option<Frame>

    function State(): Scanner
      reads this
    {
      Scanner(isCardDetected, stabilityCounter, lastFrameData)
    }

    predicate Valid()
      reads this
    {
      CounterInRange(State())
    }

    constructor ()
      ensures State() == Reset() && Valid()
    {
      isCardDetected := false;
      stabilityCounter := 0;
      lastFrameData := None;
    }

    /** `scanFrame` on one animation frame. `frame` is `None` when the video
        has no frame ready or the canvas has no context, and the state is
        then left alone. Returns whether `onCapture` was called. */
    method ScanFrame(frame: Option<Frame>) returns (captured: bool)
      requires Valid() && (frame.Some? ==> IsFrame(frame.value))
      modifies this
      ensures Valid()
      ensures frame.None? ==> State() == old(State()) && !captured
      ensures frame.Some? ==> (State(), captured) == Step(old(State()), frame.value)
    {
      captured := false;
      if frame.None? {
        return;
      }
      var imageData := frame.value;
      var cardDetected := DetectCard(imageData);
      isCardDetected := cardDetected;
      if cardDetected {
        if lastFrameData.Some? {
          var frameDiff := CalculateFrameDifference(imageData.data, lastFrameData.value.data);
          if frameDiff.Some? && frameDiff.value < StillLimit {
            if stabilityCounter >= StableFrames {
              captured := true;
              stabilityCounter := 0;
            } else {
              stabilityCounter := stabilityCounter + 1;
            }
          } else {
            stabilityCounter := 0;
          }
        }
        lastFrameData := Some(imageData);
      } else {
        stabilityCounter := 0;
        lastFrameData := None;
      }
    }

    /** The cleanup when the view unmounts. */
    method Cleanup()
      modifies this
      ensures State() == Reset() && Valid()
    {
      isCardDetected := false;
      stabilityCounter := 0;
      lastFrameData := None;
    }
  }
}
