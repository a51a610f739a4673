/**
 * SonarDrawer: renders a ping as a rectangular bearing-by-range image, then
 * resamples it into a fan-shaped image through a pair of remap tables that
 * a single-slot cache (CachedMap) rebuilds only when the ping's geometry
 * changes.
 *
 * Floating-point functions and OpenCV are foreign code here: they enter as
 * uninterpreted functions bundled in `Externals`.
 */
module SonarImageProc {
  import opened AbstractSonarInterface
  import opened Rounding

  newtype byte = x: int | 0 <= x < 256

  /** The OpenCV element types the renderer distinguishes. */
  datatype MatType = Cv8UC3 | Cv32FC3 | Cv32FC1 | OtherType(code: int)

  datatype Vec3b = Vec3b(c0: byte, c1: byte, c2: byte)
  datatype Vec3f = Vec3f(c0: real, c1: real, c2: real)
  datatype Vec2f = Vec2f(x: real, y: real)

  /** One image cell, in the representation its element type dictates. */
  datatype Pixel = Px8UC3(v3b: Vec3b) | Px32FC3(v3f: Vec3f) | Px32FC1(f: real)

  /** A row-major grid of `rows` rows of `cols` cells, as a cv::Mat holds them. */
  datatype Grid<T> = Grid(rows: nat, cols: nat, cells: seq<seq<T>>)
  {
    predicate Shaped() {
      |cells| == rows && forall y :: 0 <= y < |cells| ==> |cells[y]| == cols
    }

    /** cv::Mat::empty(): no element at all. */
    predicate Empty() {
      rows == 0 || cols == 0
    }
  }

  datatype Image = Image(matType: MatType, pixels: Grid<Pixel>)

  /** cv::Mat(0, 0, CV_8UC3), the default buffer of both drawing calls. */
  function DefaultImage(): (img: Image)
    ensures img.matType == Cv8UC3 && img.pixels.Empty()
  {
    Image(Cv8UC3, Grid(0, 0, []))
  }

  /** A colormap: one lookup per output element type. */
  datatype SonarColorMap = SonarColorMap(
    lookup8UC3: (Ping, AzimuthRangeIndices) -> Vec3b,
    lookup32FC3: (Ping, AzimuthRangeIndices) -> Vec3f,
    lookup32FC1: (Ping, AzimuthRangeIndices) -> real)

  /**
   * Floating-point arithmetic as the renderer uses it: libm's sin, sqrt and
   * atan2, and the rounded products and quotients (`divide` is IEEE
   * division, total on all operands).
   */
  datatype FloatMath = FloatMath(
    multiply: (real, real) -> real,
    sin: real -> real,
    sqrt: real -> real,
    atan2: (real, real) -> real,
    divide: (real, real) -> real)

  /** The two tables cv::remap consumes (CV_16SC2 coordinates and CV_16UC1 interpolation indices). */
  datatype MapPair = MapPair(map1: Grid<(int, int)>, map2: Grid<int>)

  /**
   * OpenCV: cv::convertMaps works cell by cell (`convertCell`); cv::remap
   * resamples an image through a map pair.
   */
  datatype OpenCv = OpenCv(
    convertCell: Vec2f -> ((int, int), int),
    remap: (Image, MapPair) -> Image)

  /** Everything the renderer calls but does not define, including drawOverlay. */
  datatype Externals = Externals(math: FloatMath, cv: OpenCv, drawOverlay: (Ping, Image) -> Image)

  // ==== drawRectSonarImage ====

  predicate IsRectType(t: MatType) {
    t == Cv8UC3 || t == Cv32FC3 || t == Cv32FC1
  }

  /** The element type of the rect image, given the caller's buffer type. */
  function RectType(inType: MatType): (t: MatType)
    ensures IsRectType(t)
    ensures IsRectType(inType) ==> t == inType
    ensures !IsRectType(inType) ==> t == Cv8UC3
  {
    if inType == Cv8UC3 || inType == Cv32FC3 || inType == Cv32FC1 then inType else Cv8UC3
  }

  /** The colormap lookup matching the element type. */
  function ColorLookup(t: MatType, colorMap: SonarColorMap, ping: Ping, loc: AzimuthRangeIndices): Pixel
    requires IsRectType(t)
  {
    if t == Cv8UC3 then Px8UC3(colorMap.lookup8UC3(ping, loc))
    else if t == Cv32FC3 then Px32FC3(colorMap.lookup32FC3(ping, loc))
    else Px32FC1(colorMap.lookup32FC1(ping, loc))
  }

  /**
   * The rect image as a value: nBearings rows by nRanges columns (cv::Size
   * is width-first), the cell at row b and column r holding the colormap of
   * sample (azimuth b, range r).
   */
  function RectImage(ping: Ping, colorMap: SonarColorMap, inType: MatType): (img: Image)
    ensures img.matType == RectType(inType) && img.pixels.Shaped()
    ensures img.pixels.rows == ping.nBearings && img.pixels.cols == ping.nRanges
    ensures forall b, r :: 0 <= b < ping.nBearings && 0 <= r < ping.nRanges ==>
      img.pixels.cells[b][r] == ColorLookup(img.matType, colorMap, ping, AzimuthRangeIndices(b, r))
  {
    var t := RectType(inType);
    Image(t, Grid(ping.nBearings, ping.nRanges,
      seq(ping.nBearings, b requires 0 <= b < ping.nBearings =>
        seq(ping.nRanges, r requires 0 <= r < ping.nRanges =>
          ColorLookup(t, colorMap, ping, AzimuthRangeIndices(b, r))))))
  }

  /** Shape and element type of the rect image; zero ranges or bearings give an empty image. */
  lemma RectImageShape(ping: Ping, colorMap: SonarColorMap, inType: MatType)
    ensures var img := RectImage(ping, colorMap, inType);
      && img.pixels.Shaped()
      && img.pixels.rows == ping.nBearings && img.pixels.cols == ping.nRanges
      && img.matType == RectType(inType)
      && (img.pixels.Empty() <==> ping.nRanges == 0 || ping.nBearings == 0)
  {
  }

  /**
   * Cell (0, 0) holds the smallest range at the first (most negative)
   * bearing; the last row holds the last bearing, the last column the
   * largest range.
   */
  lemma RectImageCorners(ping: Ping, colorMap: SonarColorMap, inType: MatType)
    requires ping.nRanges > 0 && ping.nBearings > 0
    ensures var img := RectImage(ping, colorMap, inType);
      var t := img.matType;
      && img.pixels.cells[0][0] == ColorLookup(t, colorMap, ping, AzimuthRangeIndices(0, 0))
      && img.pixels.cells[0][ping.nRanges - 1] == ColorLookup(t, colorMap, ping, AzimuthRangeIndices(0, ping.nRanges - 1))
      && img.pixels.cells[ping.nBearings - 1][ping.nRanges - 1]
         == ColorLookup(t, colorMap, ping, AzimuthRangeIndices(ping.nBearings - 1, ping.nRanges - 1))
  {
  }

  /** With the default buffer the rect image is 8-bit, three-channel. */
  lemma DefaultRectIs8UC3(ping: Ping, colorMap: SonarColorMap)
    ensures RectImage(ping, colorMap, DefaultImage().matType).matType == Cv8UC3
  {
  }

  // ==== CachedMap: geometry, canvas and tables ====

  /** The geometry a cache entry is keyed on. */
  datatype Fingerprint = Fingerprint(numRanges: int, numAzimuth: int, rangeBounds: Bounds, azimuthBounds: Bounds)

  function FingerprintOf(ping: Ping): Fingerprint {
    Fingerprint(ping.nRanges, ping.NAzimuth(), ping.rangeBounds, ping.azimuthBounds)
  }

  /** The fan canvas: columns left and right of the sonar origin. */
  datatype Canvas = Canvas(minusWidth: int, plusWidth: int)
  {
    function Width(): int { plusWidth - minusWidth }
    function OriginX(): nat { if minusWidth < 0 then -minusWidth else minusWidth }
  }

  function CanvasOf(ping: Ping, math: FloatMath): Canvas {
    Canvas(math.multiply(ping.nRanges as real, math.sin(ping.azimuthBounds.first)).Floor,
           Ceil(math.multiply(ping.nRanges as real, math.sin(ping.azimuthBounds.second))))
  }

  /** `create` gives up on a canvas without columns or rows. */
  predicate Degenerate(ping: Ping, math: FloatMath) {
    CanvasOf(ping, math).Width() <= 0 || ping.nRanges <= 0
  }

  /**
   * The source coordinates for fan pixel (x, y): the distance from the
   * origin (bottom row, column originX) as the range column, and the
   * bearing, scaled by the bearing step, as the row.
   */
  function MapEntry(ping: Ping, math: FloatMath, x: int, y: int): Vec2f {
    var dx := (x - CanvasOf(ping, math).OriginX()) as real;
    var dy := (ping.nRanges - y) as real;
    var db := math.divide(ping.azimuthBounds.second - ping.azimuthBounds.first, ping.NAzimuth() as real);
    Vec2f(math.sqrt(math.multiply(dx, dx) + math.multiply(dy, dy)), math.divide(math.atan2(dx, dy) - ping.azimuthBounds.first, db))
  }

  /** The floating-point map `create` fills: nRanges rows by width columns. */
  function PolarMap(ping: Ping, math: FloatMath): (g: Grid<Vec2f>)
    requires !Degenerate(ping, math)
  {
    var width := CanvasOf(ping, math).Width();
    Grid(ping.nRanges, width,
      seq(ping.nRanges, y requires 0 <= y < ping.nRanges =>
        seq(width, x requires 0 <= x < width => MapEntry(ping, math, x, y))))
  }

  /** cv::convertMaps to the CV_16SC2 / CV_16UC1 pair, cell by cell. */
  function ConvertMaps(m: Grid<Vec2f>, cv: OpenCv): MapPair
    requires m.Shaped()
  {
    MapPair(
      Grid(m.rows, m.cols, seq(m.rows, y requires 0 <= y < m.rows =>
        seq(m.cols, x requires 0 <= x < m.cols => cv.convertCell(m.cells[y][x]).0))),
      Grid(m.rows, m.cols, seq(m.rows, y requires 0 <= y < m.rows =>
        seq(m.cols, x requires 0 <= x < m.cols => cv.convertCell(m.cells[y][x]).1))))
  }

  /** The tables of a non-degenerate ping: canvas-sized and not empty. */
  lemma TablesOfPing(ping: Ping, math: FloatMath, cv: OpenCv)
    requires !Degenerate(ping, math)
    ensures PolarMap(ping, math).Shaped()
    ensures var maps := ConvertMaps(PolarMap(ping, math), cv);
      && maps.map1.rows == maps.map2.rows == ping.nRanges
      && maps.map1.cols == maps.map2.cols == CanvasOf(ping, math).Width()
      && maps.map1.Shaped() && maps.map2.Shaped()
      && !maps.map1.Empty() && !maps.map2.Empty()
  {
  }

  /** The canvas is nRanges high and ceil(n sin(azMax)) - floor(n sin(azMin)) wide. */
  lemma CanvasSize(ping: Ping, math: FloatMath)
    requires !Degenerate(ping, math)
    ensures PolarMap(ping, math).rows == ping.nRanges
    ensures PolarMap(ping, math).cols
      == Ceil(math.multiply(ping.nRanges as real, math.sin(ping.azimuthBounds.second)))
         - math.multiply(ping.nRanges as real, math.sin(ping.azimuthBounds.first)).Floor
  {
    assert PolarMap(ping, math).cols == CanvasOf(ping, math).Width();
  }

  /**
   * The tables depend on the fingerprint only: two pings with the same
   * geometry (whatever their intensities) get identical tables.
   */
  lemma TablesDependOnGeometryOnly(p: Ping, q: Ping, math: FloatMath)
    requires FingerprintOf(p) == FingerprintOf(q) && !Degenerate(p, math)
    ensures !Degenerate(q, math) && PolarMap(p, math) == PolarMap(q, math)
  {
    assert CanvasOf(p, math) == CanvasOf(q, math);
    var mp, mq := PolarMap(p, math), PolarMap(q, math);
    forall y | 0 <= y < mp.rows
      ensures mp.cells[y] == mq.cells[y]
    {
      forall x | 0 <= x < mp.cols
        ensures mp.cells[y][x] == mq.cells[y][x]
      {
        SameEntry(p, q, math, x, y);
      }
    }
  }

  lemma SameEntry(p: Ping, q: Ping, math: FloatMath, x: int, y: int)
    requires FingerprintOf(p) == FingerprintOf(q)
    ensures MapEntry(p, math, x, y) == MapEntry(q, math, x, y)
  {
    assert CanvasOf(p, math) == CanvasOf(q, math);
  }

  /**
   * The loop of `create`: allocate the CV_32FC2 map and fill it column by
   * column, each cell with the range and scaled bearing of its fan pixel.
   */
  method FillPolarMap(ping: Ping, math: FloatMath) returns (floatMap: Grid<Vec2f>)
    requires !Degenerate(ping, math)
    ensures floatMap == PolarMap(ping, math)
  {
    var nRanges := ping.nRanges;
    var width := CanvasOf(ping, math).Width();
    var originX := CanvasOf(ping, math).OriginX();
    var newmap := new Vec2f[nRanges, width];
    var db := math.divide(ping.azimuthBounds.second - ping.azimuthBounds.first, ping.NAzimuth() as real);
    var x := 0;
    while x < width
      invariant 0 <= x <= width
      invariant forall y', x' :: 0 <= y' < nRanges && 0 <= x' < x ==> newmap[y', x'] == MapEntry(ping, math, x', y')
    {
      FillColumn(newmap, ping, math, x, originX, db);
      x := x + 1;
    }
    floatMap := GridOf(newmap);
    ghost var expected := PolarMap(ping, math);
    forall y, x | 0 <= y < nRanges && 0 <= x < width
      ensures floatMap.cells[y][x] == expected.cells[y][x]
    {
      assert floatMap.cells[y][x] == newmap[y, x];
    }
    SameGrid(floatMap, expected);
  }

  /** One pass of the inner loop of `create`: column x of the map, top to bottom. */
  method FillColumn(newmap: array2<Vec2f>, ping: Ping, math: FloatMath, x: nat, originX: int, db: real)
    requires !Degenerate(ping, math)
    requires newmap.Length0 == ping.nRanges && newmap.Length1 == CanvasOf(ping, math).Width() && x < newmap.Length1
    requires originX == CanvasOf(ping, math).OriginX()
    requires db == math.divide(ping.azimuthBounds.second - ping.azimuthBounds.first, ping.NAzimuth() as real)
    modifies newmap
    ensures forall y' :: 0 <= y' < newmap.Length0 ==> newmap[y', x] == MapEntry(ping, math, x, y')
    ensures forall y', x' :: 0 <= y' < newmap.Length0 && 0 <= x' < newmap.Length1 && x' != x ==>
      newmap[y', x'] == old(newmap[y', x'])
  {
    var nRanges := ping.nRanges;
    var y := 0;
    while y < nRanges
      invariant 0 <= y <= nRanges
      invariant forall y' :: 0 <= y' < y ==> newmap[y', x] == MapEntry(ping, math, x, y')
      invariant forall y', x' :: 0 <= y' < newmap.Length0 && 0 <= x' < newmap.Length1 && x' != x ==>
        newmap[y', x'] == old(newmap[y', x'])
    {
      var dx := (x - originX) as real;
      var dy := (nRanges - y) as real;
      var range := math.sqrt(math.multiply(dx, dx) + math.multiply(dy, dy));
      var azimuth := math.atan2(dx, dy);
      var xp := range;
      var yp := math.divide(azimuth - ping.azimuthBounds.first, db);
      assert Vec2f(xp, yp) == MapEntry(ping, math, x, y);
      newmap[y, x] := Vec2f(xp, yp);
      y := y + 1;
    }
  }

  /** The contents of a two-dimensional array, as a grid. */
  function GridOf<T>(a: array2<T>): (g: Grid<T>)
    reads a
    ensures g.Shaped() && g.rows == a.Length0 && g.cols == a.Length1
    ensures forall y, x :: 0 <= y < g.rows && 0 <= x < g.cols ==> g.cells[y][x] == a[y, x]
  {
    Grid(a.Length0, a.Length1, seq(a.Length0, y requires 0 <= y < a.Length0 reads a =>
      seq(a.Length1, x requires 0 <= x < a.Length1 reads a => a[y, x])))
  }

  /** Two grids of one shape with the same cells are the same grid. */
  lemma SameGrid<T>(g: Grid<T>, h: Grid<T>)
    requires g.Shaped() && h.Shaped() && g.rows == h.rows && g.cols == h.cols
    requires forall y, x :: 0 <= y < g.rows && 0 <= x < g.cols ==> g.cells[y][x] == h.cells[y][x]
    ensures g == h
  {
    forall y | 0 <= y < g.rows
      ensures g.cells[y] == h.cells[y]
    {
    }
  }

  // ==== CachedMap: the single-slot memo, as a state machine ====

  /** The whole state of a CachedMap: one map pair and one fingerprint. */
  datatype CacheState = CacheState(maps: MapPair, fingerprint: Fingerprint)

  /** isValid: both maps present and the fingerprint exactly the ping's. */
  predicate ValidFor(s: CacheState, ping: Ping) {
    !s.maps.map1.Empty() && !s.maps.map2.Empty() && s.fingerprint == FingerprintOf(ping)
  }

  /** create: rebuild and re-key, or leave everything as it was on a degenerate canvas. */
  function CreateStep(s: CacheState, ping: Ping, ext: Externals): (r: CacheState)
    ensures Degenerate(ping, ext.math) ==> r == s
    ensures !Degenerate(ping, ext.math) ==> r.fingerprint == FingerprintOf(ping)
  {
    if Degenerate(ping, ext.math) then s
    else
      TablesOfPing(ping, ext.math, ext.cv);
      CacheState(ConvertMaps(PolarMap(ping, ext.math), ext.cv), FingerprintOf(ping))
  }

  /** operator(): create when not valid, then hand out the stored pair. */
  function LookupStep(s: CacheState, ping: Ping, ext: Externals): (r: (CacheState, MapPair))
    ensures r.1 == r.0.maps
    ensures ValidFor(s, ping) ==> r.0 == s
    ensures !Degenerate(ping, ext.math) ==> ValidFor(r.0, ping)
  {
    if ValidFor(s, ping) then (s, s.maps)
    else
      var next := CreateStep(s, ping, ext);
      if !Degenerate(ping, ext.math) then RebuildMakesValid(s, ping, ext); (next, next.maps)
      else (next, next.maps)
  }

  /** A cache whose maps are empty (as after construction) rebuilds on its first lookup. */
  lemma EmptyCacheRebuilds(s: CacheState, ping: Ping, ext: Externals)
    requires s.maps.map1.Empty()
    ensures LookupStep(s, ping, ext).0 == CreateStep(s, ping, ext)
  {
  }

  /** Any field of the fingerprint that differs, by any amount, makes the cache stale. */
  lemma AnyGeometryChangeInvalidates(s: CacheState, p: Ping, q: Ping)
    requires ValidFor(s, p)
    ensures ValidFor(s, q) <==>
      && q.nRanges == p.nRanges && q.NAzimuth() == p.NAzimuth()
      && q.rangeBounds == p.rangeBounds && q.azimuthBounds == p.azimuthBounds
  {
  }

  /** A rebuild for a non-degenerate ping stores its fingerprint and leaves the cache valid for it. */
  lemma {:induction false} RebuildMakesValid(s: CacheState, ping: Ping, ext: Externals)
    requires !Degenerate(ping, ext.math)
    ensures CreateStep(s, ping, ext).fingerprint == FingerprintOf(ping)
    ensures ValidFor(CreateStep(s, ping, ext), ping)
  {
    TablesOfPing(ping, ext.math, ext.cv);
  }

  /**
   * A second lookup with the same geometry changes nothing and returns the
   * same tables, whatever the first lookup found.
   */
  lemma {:induction false} SecondLookupIsCached(s: CacheState, p: Ping, q: Ping, ext: Externals)
    requires !Degenerate(p, ext.math) && FingerprintOf(q) == FingerprintOf(p)
    ensures var (s1, m1) := LookupStep(s, p, ext);
      LookupStep(s1, q, ext) == (s1, m1)
  {
    if !ValidFor(s, p) {
      RebuildMakesValid(s, p, ext);
    }
  }

  /**
   * A stale lookup for a degenerate canvas rebuilds nothing: the cache keeps
   * its old tables and fingerprint and hands out the old tables.
   */
  lemma DegenerateLookupReturnsStoredMaps(s: CacheState, ping: Ping, ext: Externals)
    requires Degenerate(ping, ext.math)
    ensures LookupStep(s, ping, ext) == (s, s.maps)
  {
  }

  /**
   * EMPTY -> VALID -> STALE -> VALID: a cache valid for p, asked about a
   * non-degenerate q of different geometry, ends valid for q and no longer for p.
   */
  lemma {:induction false} StaleCacheRebuildsForNewGeometry(s: CacheState, p: Ping, q: Ping, ext: Externals)
    requires ValidFor(s, p) && !Degenerate(q, ext.math) && FingerprintOf(q) != FingerprintOf(p)
    ensures !ValidFor(s, q)
    ensures var s1 := LookupStep(s, q, ext).0;
      ValidFor(s1, q) && !ValidFor(s1, p) && s1.fingerprint == FingerprintOf(q)
  {
    RebuildMakesValid(s, q, ext);
  }

  /** The CachedMap of one SonarDrawer. */
  class CachedMap {
    const ext: Externals
    var scMap1: Grid<(int, int)>
    var scMap2: Grid<int>
    var rangeBounds: Bounds
    var azimuthBounds: Bounds
    var numRanges: int
    var numAzimuth: int
    /** How many times the tables were actually rebuilt. */
    ghost var builds: nat

    function State(): CacheState
      reads this
    {
      CacheState(MapPair(scMap1, scMap2), Fingerprint(numRanges, numAzimuth, rangeBounds, azimuthBounds))
    }

    /** Both maps start empty; the fingerprint fields start indeterminate. */
    constructor(ext: Externals)
      ensures this.ext == ext && scMap1.Empty() && scMap2.Empty() && builds == 0
    {
      this.ext := ext;
      scMap1 := Grid(0, 0, []);
      scMap2 := Grid(0, 0, []);
      builds := 0;
    }

    /** isValid(). */
    function IsValid(ping: Ping): (valid: bool)
      reads this
      ensures valid <==> ValidFor(State(), ping)
    {
      if scMap1.Empty() || scMap2.Empty() then false
      else if numAzimuth != ping.NAzimuth() || numRanges != ping.nRanges
           || rangeBounds != ping.rangeBounds || azimuthBounds != ping.azimuthBounds then false
      else true
    }

    /** create(): size the canvas, fill the float map cell by cell, convert it, save the fingerprint. */
    method Create(ping: Ping)
      modifies this
      ensures State() == CreateStep(old(State()), ping, ext)
      ensures builds == old(builds) + (if Degenerate(ping, ext.math) then 0 else 1)
    {
      var math := ext.math;
      var nRanges := ping.nRanges;
      var minusWidth := math.multiply(nRanges as real, math.sin(ping.azimuthBounds.first)).Floor;
      var plusWidth := Ceil(math.multiply(nRanges as real, math.sin(ping.azimuthBounds.second)));
      var width := plusWidth - minusWidth;
      var originX := if minusWidth < 0 then -minusWidth else minusWidth;
      assert CanvasOf(ping, math) == Canvas(minusWidth, plusWidth);
      if width <= 0 || nRanges <= 0 {
        assert Degenerate(ping, math);
        return;
      }

      var floatMap := FillPolarMap(ping, math);
      var maps := ConvertMaps(floatMap, ext.cv);
      scMap1, scMap2 := maps.map1, maps.map2;
      builds := builds + 1;

      numRanges := ping.nRanges;
      numAzimuth := ping.nBearings;
      rangeBounds := ping.rangeBounds;
      azimuthBounds := ping.azimuthBounds;
    }

    /** operator(): rebuild only when not valid, then return the stored pair. */
    method Lookup(ping: Ping) returns (maps: MapPair)
      modifies this
      ensures (State(), maps) == LookupStep(old(State()), ping, ext)
      ensures builds == old(builds) + (if old(IsValid(ping)) || Degenerate(ping, ext.math) then 0 else 1)
    {
      if !IsValid(ping) {
        Create(ping);
      }
      maps := MapPair(scMap1, scMap2);
    }
  }

  // ==== SonarDrawer ====

  class SonarDrawer {
    const cachedMap: CachedMap

    constructor(ext: Externals)
      ensures fresh(cachedMap) && cachedMap.ext == ext && cachedMap.scMap1.Empty() && cachedMap.scMap2.Empty() && cachedMap.builds == 0
    {
      cachedMap := new CachedMap(ext);
    }

    /**
     * drawRectSonarImage(): keep the buffer's type if the renderer supports
     * it, reshape to nBearings x nRanges and fill every cell from the colormap.
     */
    method DrawRectSonarImage(ping: Ping, colorMap: SonarColorMap, rectIn: Image := DefaultImage())
      returns (rect: Image)
      ensures rect == RectImage(ping, colorMap, rectIn.matType)
    {
      var t := RectType(rectIn.matType);
      var cells := new Pixel[ping.nBearings, ping.nRanges];
      var r := 0;
      while r < ping.nRanges
        invariant 0 <= r <= ping.nRanges
        invariant forall b', r' :: 0 <= b' < ping.nBearings && 0 <= r' < r ==>
          cells[b', r'] == ColorLookup(t, colorMap, ping, AzimuthRangeIndices(b', r'))
      {
        var b := 0;
        while b < ping.nBearings
          invariant 0 <= b <= ping.nBearings
          invariant forall b', r' :: 0 <= b' < ping.nBearings && 0 <= r' < r ==>
            cells[b', r'] == ColorLookup(t, colorMap, ping, AzimuthRangeIndices(b', r'))
          invariant forall b' :: 0 <= b' < b ==> cells[b', r] == ColorLookup(t, colorMap, ping, AzimuthRangeIndices(b', r))
        {
          var loc := AzimuthRangeIndices(b, r);
          if t == Cv8UC3 {
            cells[b, r] := Px8UC3(colorMap.lookup8UC3(ping, loc));
          } else if t == Cv32FC3 {
            cells[b, r] := Px32FC3(colorMap.lookup32FC3(ping, loc));
          } else {
            cells[b, r] := Px32FC1(colorMap.lookup32FC1(ping, loc));
          }
          b := b + 1;
        }
        r := r + 1;
      }
      rect := Image(t, Grid(ping.nBearings, ping.nRanges,
        seq(ping.nBearings, b requires 0 <= b < ping.nBearings reads cells =>
          seq(ping.nRanges, r requires 0 <= r < ping.nRanges reads cells => cells[b, r]))));
      assert forall b :: 0 <= b < ping.nBearings ==>
        rect.pixels.cells[b] == RectImage(ping, colorMap, rectIn.matType).pixels.cells[b];
    }

    /** remapRectSonarImage(): resample the rect image through the cached tables. */
    method RemapRectSonarImage(ping: Ping, rectImage: Image) returns (out: Image)
      modifies cachedMap
      ensures var (s, maps) := LookupStep(old(cachedMap.State()), ping, cachedMap.ext);
        cachedMap.State() == s && out == cachedMap.ext.cv.remap(rectImage, maps)
    {
      var maps := cachedMap.Lookup(ping);
      out := cachedMap.ext.cv.remap(rectImage, maps);
    }

    /**
     * drawSonar(): rect image, then remap, then the overlay when asked for;
     * the rect image itself is not returned.
     */
    method DrawSonar(ping: Ping, colorMap: SonarColorMap, image: Image := DefaultImage(), addOverlay: bool := false)
      returns (out: Image)
      modifies cachedMap
      ensures var (s, maps) := LookupStep(old(cachedMap.State()), ping, cachedMap.ext);
        var sonar := cachedMap.ext.cv.remap(RectImage(ping, colorMap, image.matType), maps);
        && cachedMap.State() == s
        && out == (if addOverlay then cachedMap.ext.drawOverlay(ping, sonar) else sonar)
    {
      var rect := DrawRectSonarImage(ping, colorMap, image);
      var sonar := RemapRectSonarImage(ping, rect);
      if addOverlay {
        out := cachedMap.ext.drawOverlay(ping, sonar);
      } else {
        out := sonar;
      }
    }
  }
}
