/** The line follower's mask clean-up and column search. A mask is the set of its white
    pixels, each a row and a column. */
module LineFollower {

  type Pixel = (int, int)

  type Mask = set<Pixel>

  const SCAN_Y: nat := 100
  const SCAN_HEIGHT: nat := 20
  const MIN_DETECTION_THRESHOLD: nat := 20
  const WHITE: nat := 255

  function Frame(h: nat, w: nat): (frame: Mask)
    ensures forall p :: p in frame <==> 0 <= p.0 < h && 0 <= p.1 < w
  {
    set r, c | 0 <= r < h && 0 <= c < w :: (r, c)
  }

  /** q is in the 3x3 window around p. */
  predicate Near(p: Pixel, q: Pixel) {
    -1 <= p.0 - q.0 <= 1 && -1 <= p.1 - q.1 <= 1
  }

  /** Dilation and erosion by a 3x3 square; pixels outside the image never count. */
  function Dilate(frame: Mask, m: Mask): Mask {
    set p | p in frame && exists q :: q in m && Near(p, q)
  }

  function Erode(frame: Mask, m: Mask): Mask {
    set p | p in frame && forall q :: q in frame && Near(p, q) ==> q in m
  }

  function Close(frame: Mask, m: Mask): Mask {
    Erode(frame, Dilate(frame, m))
  }

  function Open(frame: Mask, m: Mask): Mask {
    Dilate(frame, Erode(frame, m))
  }

  /** The clean-up: close small gaps, then remove small noise. */
  function Clean(frame: Mask, m: Mask): Mask {
    Open(frame, Close(frame, m))
  }

  // ----- morphology on an image of any size

  /** Dilation and erosion are adjoint; everything else follows from this. */
  lemma Adjoint(frame: Mask, m: Mask, n: Mask)
    requires m <= frame && n <= frame
    ensures Dilate(frame, m) <= n <==> m <= Erode(frame, n)
  {
    if Dilate(frame, m) <= n {
      forall p | p in m
        ensures p in Erode(frame, n)
      {
        forall q | q in frame && Near(p, q)
          ensures q in n
        {
          assert Near(q, p);
          assert q in Dilate(frame, m);
        }
      }
    }
  }

  lemma Monotone(frame: Mask, m: Mask, n: Mask)
    requires m <= n
    ensures Dilate(frame, m) <= Dilate(frame, n) && Erode(frame, m) <= Erode(frame, n)
  {
  }

  /** Opening only removes and closing only adds; neither changes its own result. */
  lemma OpenShrinks(frame: Mask, m: Mask)
    requires m <= frame
    ensures Open(frame, m) <= m
  {
    Adjoint(frame, Erode(frame, m), m);
  }

  lemma CloseGrows(frame: Mask, m: Mask)
    requires m <= frame
    ensures m <= Close(frame, m)
  {
    Adjoint(frame, m, Dilate(frame, m));
  }

  lemma OpenTwice(frame: Mask, m: Mask)
    requires m <= frame
    ensures Open(frame, Open(frame, m)) == Open(frame, m)
  {
    OpenShrinks(frame, Open(frame, m));
    CloseGrows(frame, Erode(frame, m));
    Monotone(frame, Erode(frame, m), Erode(frame, Open(frame, m)));
  }

  lemma CloseTwice(frame: Mask, m: Mask)
    requires m <= frame
    ensures Close(frame, Close(frame, m)) == Close(frame, m)
  {
    CloseGrows(frame, Close(frame, m));
    OpenShrinks(frame, Dilate(frame, m));
    Monotone(frame, Dilate(frame, Close(frame, m)), Dilate(frame, m));
  }

  lemma OpenMonotone(frame: Mask, m: Mask, n: Mask)
    requires m <= n
    ensures Open(frame, m) <= Open(frame, n)
  {
    Monotone(frame, m, n);
    Monotone(frame, Erode(frame, m), Erode(frame, n));
  }

  lemma CloseMonotone(frame: Mask, m: Mask, n: Mask)
    requires m <= n
    ensures Close(frame, m) <= Close(frame, n)
  {
    Monotone(frame, m, n);
    Monotone(frame, Dilate(frame, m), Dilate(frame, n));
  }

  /** A whiter mask stays whiter. */
  lemma CleanMonotone(frame: Mask, m: Mask, n: Mask)
    requires m <= n
    ensures Clean(frame, m) <= Clean(frame, n)
  {
    CloseMonotone(frame, m, n);
    OpenMonotone(frame, Close(frame, m), Close(frame, n));
  }

  /** Cleaning a clean mask changes nothing. */
  lemma CleanIdempotent(frame: Mask, m: Mask)
    requires m <= frame
    ensures Clean(frame, Clean(frame, m)) == Clean(frame, m)
  {
    var closed, clean := Close(frame, m), Clean(frame, m);
    OpenShrinks(frame, closed);
    CloseMonotone(frame, clean, closed);
    CloseTwice(frame, m);
    OpenMonotone(frame, Close(frame, clean), closed);
    CloseGrows(frame, clean);
    OpenMonotone(frame, clean, Close(frame, clean));
    OpenTwice(frame, closed);
  }

  /** Every white pixel of a clean mask lies in a window that is white as far as it is
      inside the image: no speck smaller than that survives. */
  lemma CleanHasWindows(frame: Mask, m: Mask, p: Pixel) returns (q: Pixel)
    requires p in Clean(frame, m)
    ensures q in frame && Near(p, q)
    ensures forall r :: r in frame && Near(q, r) ==> r in Clean(frame, m)
  {
    var solid := Erode(frame, Close(frame, m));
    q :| q in solid && Near(p, q);
    forall r | r in frame && Near(q, r)
      ensures r in Clean(frame, m)
    {
      assert Near(r, q);
      assert r in Dilate(frame, solid);
    }
  }

  /** The clean-up, pixel by pixel: p survives if it lies in a 3x3 window, around some q, in
      which every pixel has white pixels of the original mask near itself and near each of
      its neighbours. All windows are clipped at the border. */
  ghost predicate Survives(frame: Mask, m: Mask, p: Pixel) {
    exists q: Pixel ::
      Around(frame, q, p) && Filled(frame, m, q)
  }

  /** q and p are pixels of the image, at most one row and one column apart. */
  predicate Around(frame: Mask, q: Pixel, p: Pixel) {
    && q in frame && p in frame
    && (p.0 == q.0 - 1 || p.0 == q.0 || p.0 == q.0 + 1)
    && (p.1 == q.1 - 1 || p.1 == q.1 || p.1 == q.1 + 1)
  }

  /** Every pixel of the window around q, and every neighbour of such a pixel, is near a
      white one. */
  ghost predicate Filled(frame: Mask, m: Mask, q: Pixel) {
    forall r: Pixel, u: Pixel :: Around(frame, q, r) && Around(frame, r, u) ==> Touched(frame, m, u)
  }

  ghost predicate Touched(frame: Mask, m: Mask, u: Pixel) {
    exists w: Pixel :: Around(frame, u, w) && w in m
  }

  lemma ClosedExactly(frame: Mask, m: Mask, r: Pixel)
    requires m <= frame
    ensures r in Close(frame, m) <==> r in frame && forall u :: Around(frame, r, u) ==> Touched(frame, m, u)
  {
    forall u | u in frame
      ensures u in Dilate(frame, m) <==> Touched(frame, m, u)
    {
      if u in Dilate(frame, m) {
        var w :| w in m && Near(u, w);
        assert Around(frame, u, w);
      }
      if w :| Around(frame, u, w) && w in m {
        assert Near(u, w);
      }
    }
    forall u
      ensures r in frame && u in frame ==> (Near(r, u) <==> Around(frame, r, u))
    {
    }
  }

  lemma SolidExactly(frame: Mask, m: Mask, q: Pixel)
    requires m <= frame
    ensures q in Erode(frame, Close(frame, m)) <==> q in frame && Filled(frame, m, q)
  {
    if q in frame && Filled(frame, m, q) {
      forall r | r in frame && Near(q, r)
        ensures r in Close(frame, m)
      {
        assert Around(frame, q, r);
        ClosedExactly(frame, m, r);
      }
    }
    if q in Erode(frame, Close(frame, m)) {
      forall r: Pixel, u: Pixel | Around(frame, q, r) && Around(frame, r, u)
        ensures Touched(frame, m, u)
      {
        assert Near(q, r);
        ClosedExactly(frame, m, r);
      }
    }
  }

  /** Closing then opening keeps exactly the pixels that survive. */
  lemma CleanExactly(frame: Mask, m: Mask, p: Pixel)
    requires m <= frame
    ensures p in Clean(frame, m) <==> Survives(frame, m, p)
  {
    if p in Clean(frame, m) {
      var q :| q in Erode(frame, Close(frame, m)) && Near(p, q);
      SolidExactly(frame, m, q);
      assert Around(frame, q, p);
    }
    if q :| Around(frame, q, p) && Filled(frame, m, q) {
      SolidExactly(frame, m, q);
      assert Near(p, q);
    }
  }

  /** A hole of one pixel is filled: if all the neighbours of p in the image are white, and
      there is one, then p and all of them are white after the clean-up. */
  lemma HoleIsFilled(frame: Mask, m: Mask, p: Pixel, v: Pixel)
    requires m <= frame && p in frame && forall q :: Around(frame, p, q) && q != p ==> q in m
    requires Around(frame, p, v) && v != p
    ensures forall q :: Around(frame, p, q) ==> q in Clean(frame, m)
  {
    forall r: Pixel, u: Pixel | Around(frame, p, r) && Around(frame, r, u)
      ensures Touched(frame, m, u)
    {
      if u == p {
        assert Around(frame, u, v) && v in m;
      } else if r == p {
        assert Around(frame, u, u) && u in m;
      } else {
        assert Around(frame, u, r) && r in m;
      }
    }
    forall q | Around(frame, p, q)
      ensures q in Clean(frame, m)
    {
      assert Filled(frame, m, p);
      CleanExactly(frame, m, q);
    }
  }

  // ----- the column search

  /** The sum of a column of the mask image, whose white pixels have the value 255. */
  function ColumnSum(m: Mask, c: int, h: nat): nat {
    if h == 0 then 0 else ColumnSum(m, c, h - 1) + if (h - 1, c) in m then WHITE else 0
  }

  /** The white rows of a column. */
  function WhiteRows(m: Mask, c: int, h: nat): set<int> {
    set r | 0 <= r < h && (r, c) in m
  }

  lemma {:induction false} ColumnSumCounts(m: Mask, c: int, h: nat)
    ensures ColumnSum(m, c, h) == 255 * |WhiteRows(m, c, h)|
    ensures |WhiteRows(m, c, h)| <= h
  {
    if h == 0 {
      assert WhiteRows(m, c, h) == {};
    } else {
      ColumnSumCounts(m, c, h - 1);
      var rest := WhiteRows(m, c, h - 1);
      assert WhiteRows(m, c, h) == if (h - 1, c) in m then rest + {h - 1} else rest;
    }
  }

  /** A column has as many white pixels as rows exactly when all its pixels are white. */
  lemma {:induction false} FullColumn(m: Mask, c: int, h: nat)
    ensures |WhiteRows(m, c, h)| == h <==> forall r :: 0 <= r < h ==> (r, c) in m
  {
    if h > 0 {
      FullColumn(m, c, h - 1);
      ColumnSumCounts(m, c, h - 1);
      var rest := WhiteRows(m, c, h - 1);
      assert WhiteRows(m, c, h) == if (h - 1, c) in m then rest + {h - 1} else rest;
    }
  }

  /** cv::reduce over the rows. */
  method Histogram(m: Mask, h: nat, w: nat) returns (hist: seq<nat>)
    ensures |hist| == w && forall c :: 0 <= c < w ==> hist[c] == ColumnSum(m, c, h)
  {
    hist := [];
    for c := 0 to w
      invariant |hist| == c && forall k :: 0 <= k < c ==> hist[k] == ColumnSum(m, k, h)
    {
      var sum := 0;
      for r := 0 to h
        invariant sum == ColumnSum(m, c, r)
      {
        if (r, c) in m {
          sum := sum + WHITE;
        }
      }
      hist := hist + [sum];
    }
  }

  /** cv::minMaxLoc: the maximum and where it is first found. */
  method MaxLoc(hist: seq<nat>) returns (x: nat, max: nat)
    requires hist != []
    ensures x < |hist| && max == hist[x]
    ensures forall c :: 0 <= c < |hist| ==> hist[c] <= max
    ensures forall c :: 0 <= c < x ==> hist[c] < max
  {
    x, max := 0, hist[0];
    for c := 1 to |hist|
      invariant x < c && max == hist[x]
      invariant forall k :: 0 <= k < c ==> hist[k] <= max
      invariant forall k :: 0 <= k < x ==> hist[k] < max
    {
      if hist[c] > max {
        x, max := c, hist[c];
      }
    }
  }

  datatype Scan = Scan(x: nat, pixels: nat, mask: Mask) | Skipped | OutOfImage

  /** The rows of the scan slice, moved to the top, that are in the colour range. */
  function Slice(inRange: Mask, cols: nat): Mask {
    set p | p in Frame(SCAN_HEIGHT, cols) && (p.0 + SCAN_Y, p.1) in inRange
  }

  /** Column c of the slice is white. */
  predicate Column(m: Mask, c: int) {
    forall r :: 0 <= r < 20 ==> (r, c) in m
  }

  /** What stays white of the rows 100 to 119 of an image with this many columns. */
  ghost predicate White(inRange: Mask, cols: nat, p: Pixel) {
    Survives(Frame(20, cols), (set q | q in Frame(20, cols) && (100 + q.0, q.1) in inRange), p)
  }

  /** What update() promises of a result it reports: the column is the first of those with
      the most white pixels in the mask, and the count is exact. */
  predicate Reported(scan: Scan, cols: nat) {
    && scan.Scan? && scan.x < cols
    && scan.pixels == |WhiteRows(scan.mask, scan.x, 20)| <= 20
    && (forall c :: 0 <= c < cols ==> |WhiteRows(scan.mask, c, 20)| <= scan.pixels)
    && (forall c :: 0 <= c < scan.x ==> |WhiteRows(scan.mask, c, 20)| < scan.pixels)
  }

  lemma CleanedIsWhite(inRange: Mask, cols: nat)
    ensures forall p :: p in Clean(Frame(20, cols), Slice(inRange, cols)) <==> White(inRange, cols, p)
  {
    var slice := set q | q in Frame(20, cols) && (100 + q.0, q.1) in inRange;
    assert Slice(inRange, cols) == slice;
    forall p
      ensures p in Clean(Frame(20, cols), slice) <==> Survives(Frame(20, cols), slice, p)
    {
      CleanExactly(Frame(20, cols), slice, p);
    }
  }

  /** update(): an empty image is skipped, one too low for the slice makes OpenCV throw;
      otherwise the mask is what stays white of the slice, and a column of it is reported. */
  method Update(rows: nat, cols: nat, inRange: Mask) returns (scan: Scan)
    ensures rows == 0 || cols == 0 <==> scan.Skipped?
    ensures 0 < rows < 120 && cols > 0 <==> scan.OutOfImage?
    ensures scan.Scan? ==> Reported(scan, cols) && forall p :: p in scan.mask <==> White(inRange, cols, p)
  {
    if rows == 0 || cols == 0 {
      return Skipped;
    }
    if rows < SCAN_Y + SCAN_HEIGHT {
      return OutOfImage;
    }
    var frame := Frame(SCAN_HEIGHT, cols);
    var mask := Slice(inRange, cols);
    CleanedIsWhite(inRange, cols);
    mask := Close(frame, mask);
    mask := Open(frame, mask);
    var hist := Histogram(mask, SCAN_HEIGHT, cols);
    var x, max := MaxLoc(hist);
    forall c
      ensures ColumnSum(mask, c, SCAN_HEIGHT) == WHITE * |WhiteRows(mask, c, SCAN_HEIGHT)|
      ensures |WhiteRows(mask, c, SCAN_HEIGHT)| <= SCAN_HEIGHT
    {
      ColumnSumCounts(mask, c, SCAN_HEIGHT);
    }
    scan := Scan(x, max / WHITE, mask);
  }

  /** The test of the diagnostic display. */
  predicate Detected(scan: Scan) {
    scan.Scan? && scan.pixels >= MIN_DETECTION_THRESHOLD
  }

  /** The line is detected exactly when the reported column is white in all scanned rows,
      which is so exactly when any column is. */
  lemma DetectedExactly(scan: Scan, cols: nat)
    requires Reported(scan, cols)
    ensures Detected(scan) <==> Column(scan.mask, scan.x)
    ensures Detected(scan) <==> exists c :: 0 <= c < cols && Column(scan.mask, c)
  {
    ColumnSumCounts(scan.mask, scan.x, SCAN_HEIGHT);
    FullColumn(scan.mask, scan.x, SCAN_HEIGHT);
    if c :| 0 <= c < cols && Column(scan.mask, c) {
      FullColumn(scan.mask, c, SCAN_HEIGHT);
    }
  }
}
