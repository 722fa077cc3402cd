/** Scaling an avatar: every output pixel is the mean of a window of source pixels. */
module BoxFilter {
  import opened Words
  import opened Arith

  /** A colour channel as the image library reports it: 16 bits. */
  type Channel = c: int | 0 <= c < 0x1_0000

  datatype Rgb = Rgb(r: Channel, g: Channel, b: Channel)

  datatype Pixel = Pixel(r: Byte, g: Byte, b: Byte, a: Byte)

  /** A source image: bounds and a colour for every coordinate. */
  datatype Source = Source(minX: int, minY: int, dx: nat, dy: nat, at: (int, int) -> Rgb)

  // ----- windows on one axis ------------------------------------------------------------------

  /** Where output coordinate i of n begins to sample a source axis of this size. */
  function Low(i: nat, n: nat, size: nat): nat
    requires n > 0
  {
    i * size / n
  }

  /** One past the last coordinate sampled; at least one is. */
  function High(i: nat, n: nat, size: nat): nat
    requires n > 0
  {
    var end := Low(i + 1, n, size);
    if end <= Low(i, n, size) then Low(i, n, size) + 1 else end
  }

  /** Division rounds down to the multiple just below. */
  lemma Floor(a: nat, n: nat, q: nat)
    requires n > 0
    ensures q * n <= a < q * n + n ==> a / n == q
    ensures a / n * n <= a < a / n * n + n
  {
    var p := a / n;
    assert a == p * n + a % n;
    if q * n <= a < q * n + n && p != q {
      if p < q {
        MulOrder(p + 1, q, n);
      } else {
        MulOrder(q + 1, p, n);
      }
      assert false;
    }
  }

  lemma FloorOrder(a: nat, b: nat, n: nat)
    requires a <= b && n > 0
    ensures a / n <= b / n
  {
    Floor(a, n, 0);
    Floor(b, n, 0);
    if b / n < a / n {
      MulOrder(b / n + 1, a / n, n);
      assert false;
    }
  }

  /** Every window is non-empty and inside a non-empty source. */
  lemma WindowInside(i: nat, n: nat, size: nat)
    requires i < n && size > 0
    ensures 0 <= Low(i, n, size) < High(i, n, size) <= size
  {
    var lo, end := Low(i, n, size), Low(i + 1, n, size);
    Floor(i * size, n, 0);
    Floor((i + 1) * size, n, 0);
    MulOrder(i + 1, n, size);
    Distribute(i, 1, size);
    assert n * size == size * n;
    if lo >= size {
      MulOrder(size, lo, n);
    }
    if end > size {
      MulOrder(size + 1, end, n);
      Distribute(size, 1, n);
    }
  }

  /**
   * Output coordinate i begins to sample where i / n of the axis lies, rounded down, and ends where
   * (i + 1) / n of it lies, rounded down to `e`, or one further on if that would leave nothing.
   */
  lemma WindowsAreEven(i: nat, n: nat, size: nat) returns (e: nat)
    requires n > 0
    ensures Low(i, n, size) * n <= i * size < Low(i, n, size) * n + n
    ensures e * n <= (i + 1) * size < e * n + n
    ensures High(i, n, size) == if e > Low(i, n, size) then e else Low(i, n, size) + 1
  {
    e := (i + 1) * size / n;
    Floor(i * size, n, 0);
    Floor((i + 1) * size, n, 0);
  }

  /** Shrinking an axis: windows abut, from the first coordinate to the last. */
  lemma WindowsAbut(i: nat, n: nat, size: nat)
    requires i < n <= size
    ensures Low(0, n, size) == 0 && Low(n, n, size) == size
    ensures High(i, n, size) == Low(i + 1, n, size) > Low(i, n, size)
  {
    Floor(0, n, 0);
    Floor(n * size, n, size);
    assert (i + 1) * size == i * size + size;
    FloorOrder(i * size + n, (i + 1) * size, n);
    Floor(i * size, n, 0);
    Floor(i * size + n, n, i * size / n + 1);
    assert (i * size / n + 1) * n == i * size / n * n + n;
  }

  /** Shrinking an axis: every source coordinate lies in exactly one window. */
  lemma CoveredOnce(c: nat, n: nat, size: nat) returns (i: nat)
    requires c < size && 0 < n <= size
    ensures i < n && Low(i, n, size) <= c < High(i, n, size)
    ensures forall j :: 0 <= j < n && j != i ==> !(Low(j, n, size) <= c < High(j, n, size))
  {
    WindowsAbut(0, n, size);
    i := 0;
    while c >= Low(i + 1, n, size)
      invariant i < n && Low(i, n, size) <= c
      decreases n - i
    {
      i := i + 1;
    }
    WindowsAbut(i, n, size);
    forall j | 0 <= j < n && j != i ensures !(Low(j, n, size) <= c < High(j, n, size)) {
      WindowsAbut(j, n, size);
      if j < i {
        LowOrder(j + 1, i, n, size);
      } else {
        LowOrder(i + 1, j, n, size);
      }
    }
  }

  lemma LowOrder(i: nat, j: nat, n: nat, size: nat)
    requires i <= j && n > 0
    ensures Low(i, n, size) <= Low(j, n, size)
  {
    MulOrder(i, j, size);
    FloorOrder(i * size, j * size, n);
  }

  /** Enlarging an axis: every window is a single coordinate, and every coordinate is sampled. */
  lemma SingleWhenEnlarging(i: nat, n: nat, size: nat)
    requires size < n
    ensures High(i, n, size) == Low(i, n, size) + 1
  {
    assert (i + 1) * size == i * size + size;
    FloorOrder((i + 1) * size, i * size + n, n);
    Floor(i * size, n, 0);
    Floor(i * size + n, n, i * size / n + 1);
    assert (i * size / n + 1) * n == i * size / n * n + n;
  }

  lemma HitWhenEnlarging(c: nat, n: nat, size: nat) returns (i: nat)
    requires c < size < n
    ensures i < n && Low(i, n, size) == c
  {
    var a := c * n + size - 1;
    i := a / size;
    Floor(a, size, i);
    Floor(i * size, n, c);
    if i >= n {
      MulOrder(n, i, size);
      MulOrder(c + 1, size, n);
      assert false;
    }
  }

  // ----- the whole image ----------------------------------------------------------------------

  /** Total width of the first k windows. */
  function Widths(k: nat, n: nat, size: nat): nat
    requires n > 0
  {
    if k == 0 then 0 else Widths(k - 1, n, size) + (High(k - 1, n, size) - Low(k - 1, n, size))
  }

  /** Total area of the first k windows of a row of this height, and of the first k rows. */
  function RowArea(k: nat, n: nat, size: nat, height: nat): nat
    requires n > 0
  {
    if k == 0 then 0 else RowArea(k - 1, n, size, height) + (High(k - 1, n, size) - Low(k - 1, n, size)) * height
  }

  function Area(k: nat, dw: nat, dh: nat, dx: nat, dy: nat): nat
    requires dw > 0 && dh > 0
  {
    if k == 0 then 0
    else Area(k - 1, dw, dh, dx, dy) + RowArea(dw, dw, dx, High(k - 1, dh, dy) - Low(k - 1, dh, dy))
  }

  lemma {:induction false} WidthsTelescope(k: nat, n: nat, size: nat)
    requires 0 < n <= size && k <= n
    ensures Widths(k, n, size) == Low(k, n, size)
  {
    if k == 0 {
      WindowsAbut(0, n, size);
    } else {
      WidthsTelescope(k - 1, n, size);
      WindowsAbut(k - 1, n, size);
    }
  }

  lemma {:induction false} RowAreaFactors(k: nat, n: nat, size: nat, height: nat)
    requires n > 0
    ensures RowArea(k, n, size, height) == Widths(k, n, size) * height
  {
    if k == 0 {
    } else {
      RowAreaFactors(k - 1, n, size, height);
      Distribute(Widths(k - 1, n, size), High(k - 1, n, size) - Low(k - 1, n, size), height);
    }
  }

  lemma {:induction false} AreaFactors(k: nat, dw: nat, dh: nat, dx: nat, dy: nat)
    requires dw > 0 && dh > 0
    ensures Area(k, dw, dh, dx, dy) == Widths(dw, dw, dx) * Widths(k, dh, dy)
  {
    if k == 0 {
    } else {
      AreaFactors(k - 1, dw, dh, dx, dy);
      var height := High(k - 1, dh, dy) - Low(k - 1, dh, dy);
      RowAreaFactors(dw, dw, dx, height);
      assert Widths(dw, dw, dx) * (Widths(k - 1, dh, dy) + height)
          == Widths(dw, dw, dx) * Widths(k - 1, dh, dy) + Widths(dw, dw, dx) * height;
    }
  }

  /** Shrinking on both axes: the areas of all windows add up to the area of the source. */
  lemma AreasSumToSource(dw: nat, dh: nat, dx: nat, dy: nat)
    requires 0 < dw <= dx && 0 < dh <= dy
    ensures Area(dh, dw, dh, dx, dy) == dx * dy
  {
    AreaFactors(dh, dw, dh, dx, dy);
    WidthsTelescope(dw, dw, dx);
    WidthsTelescope(dh, dh, dy);
    WindowsAbut(0, dw, dx);
    WindowsAbut(0, dh, dy);
  }

  // ----- values -------------------------------------------------------------------------------

  /** Sum of a channel over one row of the window, and over rows y0 to y1. */
  function RowSum(f: (int, int) -> Channel, x0: int, x1: int, y: int): nat
    decreases x1 - x0
  {
    if x1 <= x0 then 0 else RowSum(f, x0, x1 - 1, y) + f(x1 - 1, y)
  }

  function BoxSum(f: (int, int) -> Channel, x0: int, x1: int, y0: int, y1: int): nat
    decreases y1 - y0
  {
    if y1 <= y0 then 0 else BoxSum(f, x0, x1, y0, y1 - 1) + RowSum(f, x0, x1, y1 - 1)
  }

  ghost predicate Within(f: (int, int) -> Channel, x0: int, x1: int, y0: int, y1: int, lo: int, hi: int) {
    forall x, y :: x0 <= x < x1 && y0 <= y < y1 ==> lo <= f(x, y) <= hi
  }

  lemma BoundsAdd(lo: int, hi: int, a: int, b: int, s: int, r: int)
    requires lo * a <= s <= hi * a && lo * b <= r <= hi * b
    ensures lo * (a + b) <= s + r <= hi * (a + b)
  {
    Distribute(a, b, lo);
    Distribute(a, b, hi);
  }

  lemma {:induction false} RowSumBounds(f: (int, int) -> Channel, x0: int, x1: int, y: int, lo: int, hi: int)
    requires x0 <= x1 && Within(f, x0, x1, y, y + 1, lo, hi)
    ensures lo * (x1 - x0) <= RowSum(f, x0, x1, y) <= hi * (x1 - x0)
    decreases x1 - x0
  {
    if x1 == x0 {
    } else {
      RowSumBounds(f, x0, x1 - 1, y, lo, hi);
      BoundsAdd(lo, hi, x1 - 1 - x0, 1, RowSum(f, x0, x1 - 1, y), f(x1 - 1, y));
    }
  }

  // what a sum is, apart from the order it is taken in: these four determine it

  lemma SumOfOne(f: (int, int) -> Channel, x: int, y: int)
    ensures BoxSum(f, x, x + 1, y, y + 1) == f(x, y)
  {
    assert RowSum(f, x, x, y) == 0 && BoxSum(f, x, x + 1, y, y) == 0;
  }

  lemma SumOfNone(f: (int, int) -> Channel, x0: int, x1: int, y0: int, y1: int)
    requires x1 <= x0 || y1 <= y0
    ensures BoxSum(f, x0, x1, y0, y1) == 0
    decreases y1 - y0
  {
    if y0 < y1 {
      SumOfNone(f, x0, x1, y0, y1 - 1);
    }
  }

  lemma {:induction false} SumSplitsAtRow(f: (int, int) -> Channel, x0: int, x1: int, y0: int, y: int, y1: int)
    requires y0 <= y <= y1
    ensures BoxSum(f, x0, x1, y0, y1) == BoxSum(f, x0, x1, y0, y) + BoxSum(f, x0, x1, y, y1)
    decreases y1 - y
  {
    if y == y1 {
    } else {
      SumSplitsAtRow(f, x0, x1, y0, y, y1 - 1);
    }
  }

  lemma {:induction false} RowSplits(f: (int, int) -> Channel, x0: int, x: int, x1: int, y: int)
    requires x0 <= x <= x1
    ensures RowSum(f, x0, x1, y) == RowSum(f, x0, x, y) + RowSum(f, x, x1, y)
    decreases x1 - x
  {
    if x == x1 {
    } else {
      RowSplits(f, x0, x, x1 - 1, y);
    }
  }

  lemma {:induction false} SumSplitsAtColumn(f: (int, int) -> Channel, x0: int, x: int, x1: int, y0: int, y1: int)
    requires x0 <= x <= x1
    ensures BoxSum(f, x0, x1, y0, y1) == BoxSum(f, x0, x, y0, y1) + BoxSum(f, x, x1, y0, y1)
    decreases y1 - y0
  {
    if y1 <= y0 {
    } else {
      SumSplitsAtColumn(f, x0, x, x1, y0, y1 - 1);
      RowSplits(f, x0, x, x1, y1 - 1);
    }
  }

  /** The two channels agree on all pixels but one. */
  ghost predicate DifferAt(f: (int, int) -> Channel, g: (int, int) -> Channel, px: int, py: int) {
    forall x, y :: (x, y) != (px, py) ==> f(x, y) == g(x, y)
  }

  lemma {:induction false} RowMoves(f: (int, int) -> Channel, g: (int, int) -> Channel, x0: int, x1: int, y: int, px: int, py: int)
    requires DifferAt(f, g, px, py)
    ensures RowSum(g, x0, x1, y) - RowSum(f, x0, x1, y) == if y == py && x0 <= px < x1 then g(px, py) - f(px, py) else 0
    decreases x1 - x0
  {
    if x1 <= x0 {
    } else {
      RowMoves(f, g, x0, x1 - 1, y, px, py);
    }
  }

  /** A pixel inside the window counts exactly once in its sum, and a pixel outside it does not count. */
  lemma {:induction false} PixelCountsOnce(f: (int, int) -> Channel, g: (int, int) -> Channel,
                                           x0: int, x1: int, y0: int, y1: int, px: int, py: int)
    requires DifferAt(f, g, px, py)
    ensures BoxSum(g, x0, x1, y0, y1) - BoxSum(f, x0, x1, y0, y1) ==
              if x0 <= px < x1 && y0 <= py < y1 then g(px, py) - f(px, py) else 0
    decreases y1 - y0
  {
    if y1 <= y0 {
    } else {
      PixelCountsOnce(f, g, x0, x1, y0, y1 - 1, px, py);
      RowMoves(f, g, x0, x1, y1 - 1, px, py);
    }
  }

  /** The number of pixels in h rows of width w. */
  function Cells(w: nat, h: nat): nat {
    if h == 0 then 0 else Cells(w, h - 1) + w
  }

  lemma {:induction false} CellsIsProduct(w: nat, h: nat)
    ensures Cells(w, h) == w * h
  {
    if h == 0 {
    } else {
      CellsIsProduct(w, h - 1);
      Distribute(h - 1, 1, w);
    }
  }

  lemma {:induction false} BoxSumBounds(f: (int, int) -> Channel, x0: int, x1: int, y0: int, y1: int, lo: int, hi: int)
    requires x0 <= x1 && y0 <= y1 && Within(f, x0, x1, y0, y1, lo, hi)
    ensures lo * Cells(x1 - x0, y1 - y0) <= BoxSum(f, x0, x1, y0, y1) <= hi * Cells(x1 - x0, y1 - y0)
    decreases y1 - y0
  {
    if y1 == y0 {
    } else {
      BoxSumBounds(f, x0, x1, y0, y1 - 1, lo, hi);
      RowSumBounds(f, x0, x1, y1 - 1, lo, hi);
      BoundsAdd(lo, hi, Cells(x1 - x0, y1 - 1 - y0), x1 - x0, BoxSum(f, x0, x1, y0, y1 - 1), RowSum(f, x0, x1, y1 - 1));
    }
  }

  lemma MeanBounds(sum: nat, n: nat, lo: nat, hi: nat)
    requires n > 0 && lo * n <= sum <= hi * n
    ensures lo <= sum / n <= hi
  {
    Floor(sum, n, 0);
    var q := sum / n;
    Distribute(q, 1, n);
    Distribute(hi, 1, n);
    if q < lo {
      MulOrder(q + 1, lo, n);
    } else if q > hi {
      MulOrder(hi + 1, q, n);
    }
  }

  /** The window behind output pixel (x, y). */
  datatype Window = Window(x0: int, x1: int, y0: int, y1: int) {
    function Size(): int {
      (x1 - x0) * (y1 - y0)
    }
  }

  function WindowAt(src: Source, dw: nat, dh: nat, x: nat, y: nat): Window
    requires dw > 0 && dh > 0
  {
    Window(src.minX + Low(x, dw, src.dx), src.minX + High(x, dw, src.dx),
           src.minY + Low(y, dh, src.dy), src.minY + High(y, dh, src.dy))
  }

  /** The mean of n values, cut to its top eight bits. */
  function TopOfMean(sum: nat, n: nat): nat
    requires n > 0
  {
    sum / n / 256
  }

  /** The mean of the channel over the window, cut to its top eight bits. */
  ghost predicate IsMean(v: Byte, f: (int, int) -> Channel, w: Window) {
    w.Size() > 0 && v == TopOfMean(BoxSum(f, w.x0, w.x1, w.y0, w.y1), w.Size())
  }

  /** An output channel lies between the extremes of its window's channel, cut the same way. */
  lemma MeanIsBetween(v: Byte, f: (int, int) -> Channel, w: Window, lo: nat, hi: nat)
    requires w.x0 <= w.x1 && w.y0 <= w.y1 && IsMean(v, f, w) && Within(f, w.x0, w.x1, w.y0, w.y1, lo, hi)
    ensures lo / 256 <= v <= hi / 256
  {
    BoxSumBounds(f, w.x0, w.x1, w.y0, w.y1, lo, hi);
    CellsIsProduct(w.x1 - w.x0, w.y1 - w.y0);
    MeanBounds(BoxSum(f, w.x0, w.x1, w.y0, w.y1), w.Size(), lo, hi);
  }

  /** The mean of sixteen-bit channels always fits in sixteen bits, so its top half in eight. */
  lemma MeanFits(f: (int, int) -> Channel, w: Window)
    requires w.x0 < w.x1 && w.y0 < w.y1
    ensures w.Size() > 0
    ensures BoxSum(f, w.x0, w.x1, w.y0, w.y1) <= 0xFFFF * w.Size()
    ensures TopOfMean(BoxSum(f, w.x0, w.x1, w.y0, w.y1), w.Size()) < 256
  {
    MulOrder(1, w.y1 - w.y0, w.x1 - w.x0);
    BoxSumBounds(f, w.x0, w.x1, w.y0, w.y1, 0, 0xFFFF);
    CellsIsProduct(w.x1 - w.x0, w.y1 - w.y0);
    MeanBounds(BoxSum(f, w.x0, w.x1, w.y0, w.y1), w.Size(), 0, 0xFFFF);
  }

  /** Windows of up to 2^48 pixels cannot overflow the 64-bit accumulators. */
  lemma SumsFitIn64Bits(f: (int, int) -> Channel, w: Window)
    requires w.x0 < w.x1 && w.y0 < w.y1 && w.Size() <= 0x1_0000_0000_0000
    ensures BoxSum(f, w.x0, w.x1, w.y0, w.y1) < TWO_64
  {
    MeanFits(f, w);
  }

  function Red(src: Source): (int, int) -> Channel { (x, y) => src.at(x, y).r }
  function Green(src: Source): (int, int) -> Channel { (x, y) => src.at(x, y).g }
  function Blue(src: Source): (int, int) -> Channel { (x, y) => src.at(x, y).b }

  /** The pixel holds the window's mean in each channel and is opaque. */
  ghost predicate Sampled(p: Pixel, src: Source, w: Window) {
    IsMean(p.r, Red(src), w) && IsMean(p.g, Green(src), w) && IsMean(p.b, Blue(src), w) && p.a == 0xFF
  }

  /** Each channel of the pixel is the mean of its own channel over the window, rounded down to its top eight bits. */
  lemma SampledMeans(p: Pixel, src: Source, w: Window, r: nat, g: nat, b: nat, n: nat)
    requires w.x0 < w.x1 && w.y0 < w.y1 && Sampled(p, src, w)
    requires r == BoxSum((x, y) => src.at(x, y).r, w.x0, w.x1, w.y0, w.y1)
    requires g == BoxSum((x, y) => src.at(x, y).g, w.x0, w.x1, w.y0, w.y1)
    requires b == BoxSum((x, y) => src.at(x, y).b, w.x0, w.x1, w.y0, w.y1)
    requires n == (w.x1 - w.x0) * (w.y1 - w.y0)
    ensures p.r * 256 * n <= r < (p.r + 1) * 256 * n
    ensures p.g * 256 * n <= g < (p.g + 1) * 256 * n
    ensures p.b * 256 * n <= b < (p.b + 1) * 256 * n
    ensures p.a == 255
  {
    PixelCountsOnce(Red(src), (x, y) => src.at(x, y).r, w.x0, w.x1, w.y0, w.y1, w.x0, w.y0);
    PixelCountsOnce(Green(src), (x, y) => src.at(x, y).g, w.x0, w.x1, w.y0, w.y1, w.x0, w.y0);
    PixelCountsOnce(Blue(src), (x, y) => src.at(x, y).b, w.x0, w.x1, w.y0, w.y1, w.x0, w.y0);
    TopMeans(r, n);
    TopMeans(g, n);
    TopMeans(b, n);
  }

  lemma TopMeans(sum: nat, n: nat)
    requires n > 0
    ensures var v := TopOfMean(sum, n); v * 256 * n <= sum < (v + 1) * 256 * n
  {
    var mean, v := sum / n, TopOfMean(sum, n);
    Floor(sum, n, 0);
    assert v * 256 <= mean && mean + 1 <= (v + 1) * 256;
    MulOrder(v * 256, mean, n);
    MulOrder(mean + 1, (v + 1) * 256, n);
    Distribute(mean, 1, n);
  }

  /**
   * In the output of the scaler: raising one source pixel raises the sums of the windows that hold it,
   * by as much in each channel, and leaves every other window's sums as they are.
   */
  lemma EveryPixelCountsOnce(src: Source, src': Source, w: Window, px: int, py: int)
    requires forall x, y :: (x, y) != (px, py) ==> src.at(x, y) == src'.at(x, y)
    ensures var c, c', inside := src.at(px, py), src'.at(px, py), w.x0 <= px < w.x1 && w.y0 <= py < w.y1;
            && BoxSum(Red(src'), w.x0, w.x1, w.y0, w.y1) - BoxSum(Red(src), w.x0, w.x1, w.y0, w.y1) ==
                 (if inside then c'.r - c.r else 0)
            && BoxSum(Green(src'), w.x0, w.x1, w.y0, w.y1) - BoxSum(Green(src), w.x0, w.x1, w.y0, w.y1) ==
                 (if inside then c'.g - c.g else 0)
            && BoxSum(Blue(src'), w.x0, w.x1, w.y0, w.y1) - BoxSum(Blue(src), w.x0, w.x1, w.y0, w.y1) ==
                 (if inside then c'.b - c.b else 0)
  {
    PixelCountsOnce(Red(src), Red(src'), w.x0, w.x1, w.y0, w.y1, px, py);
    PixelCountsOnce(Green(src), Green(src'), w.x0, w.x1, w.y0, w.y1, px, py);
    PixelCountsOnce(Blue(src), Blue(src'), w.x0, w.x1, w.y0, w.y1, px, py);
  }

  /** Accumulates the window row by row. */
  method SumWindow(src: Source, w: Window) returns (r: nat, g: nat, b: nat, n: nat)
    requires w.x0 < w.x1 && w.y0 < w.y1
    ensures r == BoxSum(Red(src), w.x0, w.x1, w.y0, w.y1)
    ensures g == BoxSum(Green(src), w.x0, w.x1, w.y0, w.y1)
    ensures b == BoxSum(Blue(src), w.x0, w.x1, w.y0, w.y1)
    ensures n == w.Size() > 0
  {
    r, g, b, n := 0, 0, 0, 0;
    var sy := w.y0;
    while sy < w.y1
      invariant w.y0 <= sy <= w.y1
      invariant r == BoxSum(Red(src), w.x0, w.x1, w.y0, sy)
      invariant g == BoxSum(Green(src), w.x0, w.x1, w.y0, sy)
      invariant b == BoxSum(Blue(src), w.x0, w.x1, w.y0, sy)
      invariant n == (w.x1 - w.x0) * (sy - w.y0)
    {
      ghost var r0, g0, b0, n0 := r, g, b, n;
      var sx := w.x0;
      while sx < w.x1
        invariant w.x0 <= sx <= w.x1
        invariant r == r0 + RowSum(Red(src), w.x0, sx, sy)
        invariant g == g0 + RowSum(Green(src), w.x0, sx, sy)
        invariant b == b0 + RowSum(Blue(src), w.x0, sx, sy)
        invariant n == n0 + (sx - w.x0)
      {
        var c := src.at(sx, sy);
        r, g, b, n := r + c.r, g + c.g, b + c.b, n + 1;
        sx := sx + 1;
      }
      assert (w.x1 - w.x0) * (sy + 1 - w.y0) == (w.x1 - w.x0) * (sy - w.y0) + (w.x1 - w.x0);
      sy := sy + 1;
    }
    MeanFits(Red(src), w);
  }

  /** Fills every pixel of `dst`, indexed by row and column. */
  method ScaleInto(dst: array2<Pixel>, src: Source)
    modifies dst
    ensures forall y, x :: 0 <= y < dst.Length0 && 0 <= x < dst.Length1 ==>
              Sampled(dst[y, x], src, WindowAt(src, dst.Length1, dst.Length0, x, y))
  {
    var dw, dh := dst.Length1, dst.Length0;
    var y := 0;
    while y < dh
      invariant 0 <= y <= dh
      invariant forall v, u :: 0 <= v < y && 0 <= u < dw ==> Sampled(dst[v, u], src, WindowAt(src, dw, dh, u, v))
    {
      var y0, y1 := src.minY + y * src.dy / dh, src.minY + (y + 1) * src.dy / dh;
      if y1 <= y0 {
        y1 := y0 + 1;
      }
      var x := 0;
      while x < dw
        invariant 0 <= x <= dw
        invariant forall v, u :: 0 <= v < y && 0 <= u < dw ==> Sampled(dst[v, u], src, WindowAt(src, dw, dh, u, v))
        invariant forall u :: 0 <= u < x ==> Sampled(dst[y, u], src, WindowAt(src, dw, dh, u, y))
      {
        var x0, x1 := src.minX + x * src.dx / dw, src.minX + (x + 1) * src.dx / dw;
        if x1 <= x0 {
          x1 := x0 + 1;
        }
        var w := Window(x0, x1, y0, y1);
        assert w == WindowAt(src, dw, dh, x, y);
        var p := MeanPixel(src, w);
        dst[y, x] := p;
        x := x + 1;
      }
      y := y + 1;
    }
  }

  method MeanPixel(src: Source, w: Window) returns (p: Pixel)
    requires w.x0 < w.x1 && w.y0 < w.y1
    ensures Sampled(p, src, w)
  {
    var r, g, b, n := SumWindow(src, w);
    MeanFits(Red(src), w);
    MeanFits(Green(src), w);
    MeanFits(Blue(src), w);
    p := Pixel(TopOfMean(r, n), TopOfMean(g, n), TopOfMean(b, n), 0xFF);
  }

  /** Every sampled window of a non-empty source is non-empty and inside its bounds. */
  lemma WindowsStayInside(src: Source, dw: nat, dh: nat, x: nat, y: nat)
    requires src.dx > 0 && src.dy > 0 && x < dw && y < dh
    ensures var w := WindowAt(src, dw, dh, x, y);
            && src.minX <= w.x0 < w.x1 <= src.minX + src.dx
            && src.minY <= w.y0 < w.y1 <= src.minY + src.dy
  {
    WindowInside(x, dw, src.dx);
    WindowInside(y, dh, src.dy);
  }

  /** On each axis, output pixel (x, y) samples from its share of the source to that of its neighbour. */
  lemma WindowIsItsShare(src: Source, dw: nat, dh: nat, x: nat, y: nat) returns (ex: nat, ey: nat)
    requires x < dw && y < dh
    ensures var w := WindowAt(src, dw, dh, x, y);
            && (w.x0 - src.minX) * dw <= x * src.dx < (w.x0 - src.minX) * dw + dw
            && (w.y0 - src.minY) * dh <= y * src.dy < (w.y0 - src.minY) * dh + dh
            && ex * dw <= (x + 1) * src.dx < ex * dw + dw && ey * dh <= (y + 1) * src.dy < ey * dh + dh
            && w.x1 == (if src.minX + ex > w.x0 then src.minX + ex else w.x0 + 1)
            && w.y1 == (if src.minY + ey > w.y0 then src.minY + ey else w.y0 + 1)
  {
    ex := WindowsAreEven(x, dw, src.dx);
    ey := WindowsAreEven(y, dh, src.dy);
  }

  // ----- which windows hold a source pixel ----------------------------------------------------

  ghost predicate InBounds(src: Source, px: int, py: int) {
    src.minX <= px < src.minX + src.dx && src.minY <= py < src.minY + src.dy
  }

  /** The source pixel lies in the window behind output pixel (x, y). */
  ghost predicate Holds(src: Source, dw: nat, dh: nat, x: nat, y: nat, px: int, py: int) {
    x < dw && y < dh && var w := WindowAt(src, dw, dh, x, y); w.x0 <= px < w.x1 && w.y0 <= py < w.y1
  }

  ghost predicate HeldOnce(src: Source, dw: nat, dh: nat, px: int, py: int) {
    exists x: nat, y: nat ::
      && Holds(src, dw, dh, x, y, px, py)
      && (forall u: nat, v: nat :: Holds(src, dw, dh, u, v, px, py) ==> u == x && v == y)
  }

  /** Shrinking on both axes: each source pixel lies in the window of exactly one output pixel. */
  lemma PixelHeldOnce(src: Source, dw: nat, dh: nat, px: int, py: int)
    requires 0 < dw <= src.dx && 0 < dh <= src.dy && InBounds(src, px, py)
    ensures HeldOnce(src, dw, dh, px, py)
  {
    var x := CoveredOnce(px - src.minX, dw, src.dx);
    var y := CoveredOnce(py - src.minY, dh, src.dy);
    assert Holds(src, dw, dh, x, y, px, py);
  }

  /** Enlarging an axis: two neighbouring windows begin at the same coordinate. */
  lemma WindowsRepeat(n: nat, size: nat) returns (i: nat)
    requires 0 < size < n
    ensures i + 1 < n && Low(i, n, size) == Low(i + 1, n, size)
  {
    i := 0;
    while i + 1 < n && Low(i, n, size) != Low(i + 1, n, size)
      invariant i < n && i <= Low(i, n, size)
      decreases n - i
    {
      LowOrder(i, i + 1, n, size);
      i := i + 1;
    }
    WindowInside(i, n, size);
  }

  /** Pixels are sampled once each exactly when neither axis is enlarged. */
  lemma PartitionExactlyWhen(src: Source, dw: nat, dh: nat)
    requires src.dx > 0 && src.dy > 0 && dw > 0 && dh > 0
    ensures (forall px, py :: InBounds(src, px, py) ==> HeldOnce(src, dw, dh, px, py))
       <==> (dw <= src.dx && dh <= src.dy)
  {
    if dw <= src.dx && dh <= src.dy {
      forall px, py | InBounds(src, px, py) ensures HeldOnce(src, dw, dh, px, py) {
        PixelHeldOnce(src, dw, dh, px, py);
      }
    } else {
      WindowInside(0, dw, src.dx);
      WindowInside(0, dh, src.dy);
      var x, y, x', y' := 0, 0, 0, 0;
      if dw > src.dx {
        x := WindowsRepeat(dw, src.dx);
        x' := x + 1;
        WindowInside(x, dw, src.dx);
        WindowInside(x', dw, src.dx);
      } else {
        y := WindowsRepeat(dh, src.dy);
        y' := y + 1;
        WindowInside(y, dh, src.dy);
        WindowInside(y', dh, src.dy);
      }
      var px, py := src.minX + Low(x, dw, src.dx), src.minY + Low(y, dh, src.dy);
      assert InBounds(src, px, py) && Holds(src, dw, dh, x, y, px, py) && Holds(src, dw, dh, x', y', px, py);
      assert !HeldOnce(src, dw, dh, px, py);
    }
  }

  // ----- images of one colour -----------------------------------------------------------------

  /** The source has this colour wherever it has pixels; outside its bounds it may read as anything. */
  ghost predicate IsPlain(src: Source, c: Rgb) {
    forall px, py :: InBounds(src, px, py) ==> src.at(px, py) == c
  }

  /** Every output pixel of a plain source is that colour, cut to eight bits, and opaque. */
  lemma ConstantStaysConstant(p: Pixel, src: Source, dw: nat, dh: nat, x: nat, y: nat, c: Rgb)
    requires src.dx > 0 && src.dy > 0 && x < dw && y < dh
    requires Sampled(p, src, WindowAt(src, dw, dh, x, y)) && IsPlain(src, c)
    ensures p == Pixel(c.r / 256, c.g / 256, c.b / 256, 0xFF)
  {
    var w := WindowAt(src, dw, dh, x, y);
    WindowsStayInside(src, dw, dh, x, y);
    assert forall px, py :: w.x0 <= px < w.x1 && w.y0 <= py < w.y1 ==> InBounds(src, px, py);
    MeanIsBetween(p.r, Red(src), w, c.r, c.r);
    MeanIsBetween(p.g, Green(src), w, c.g, c.g);
    MeanIsBetween(p.b, Blue(src), w, c.b, c.b);
  }

  /** A whole plain image scales to a plain one: what the loops leave is that colour everywhere. */
  lemma PlainStaysPlain(dst: array2<Pixel>, src: Source, c: Rgb)
    requires src.dx > 0 && src.dy > 0 && IsPlain(src, c)
    requires forall y, x :: 0 <= y < dst.Length0 && 0 <= x < dst.Length1 ==>
               Sampled(dst[y, x], src, WindowAt(src, dst.Length1, dst.Length0, x, y))
    ensures forall y, x :: 0 <= y < dst.Length0 && 0 <= x < dst.Length1 ==>
              dst[y, x] == Pixel(c.r / 256, c.g / 256, c.b / 256, 0xFF)
  {
    forall y, x | 0 <= y < dst.Length0 && 0 <= x < dst.Length1
      ensures dst[y, x] == Pixel(c.r / 256, c.g / 256, c.b / 256, 0xFF)
    {
      ConstantStaysConstant(dst[y, x], src, dst.Length1, dst.Length0, x, y, c);
    }
  }
}
