/**
 * sonar_pointcloud: turns single-byte sonar images into a coloured point
 * cloud, one copy of the image per configured elevation.
 *
 * Geometry (one point per beam and range, per elevation) and the 256-entry
 * colour table are built on the first message and reused for every later
 * one. Trigonometry, the degree to radian conversion and matplotlib's
 * inferno colormap are foreign code (`PcMath`, `Colormap`).
 */
module SonarPointcloud {
  import opened Wrappers
  import opened IndexArithmetic
  import opened Rounding
  import SonarImageMsgInterface
  import AbstractSonarInterface

  type Byte = x: int | 0 <= x < 256

  datatype PcError =
    | AssertionFailed   // the constructor's max_elev_deg >= min_elev_deg
    | ZeroStep          // numpy.arange with a zero step
    | NotImplemented    // a message whose samples are not single bytes
    | IndexError        // a colour index past the end of the table

  datatype Point3 = Point3(x: real, y: real, z: real)

  /** One point of the cloud: position and packed colour. */
  datatype CloudPoint = CloudPoint(x: real, y: real, z: real, rgba: nat)

  /** The parts of an acoustic_msgs SonarImage the translator reads. */
  datatype SonarImage = SonarImage(dataSize: nat, ranges: seq<real>, azimuthAngles: seq<real>, intensities: seq<Byte>)

  datatype PcMath = PcMath(cos: real -> real, sin: real -> real, radians: real -> real)

  /** The (red, green, blue) bytes int(255 * c) of matplotlib's inferno colormap at an entry. */
  type Colormap = Byte -> (Byte, Byte, Byte)

  /** The platform byte order struct uses for 'I'. */
  datatype ByteOrder = LittleEndian | BigEndian

  /** The node's parameters: ~min_elev_deg, ~max_elev_deg, ~elev_step_deg, ~intensity_threshold. */
  datatype Config = Config(minElevDeg: real, maxElevDeg: real, elevStepDeg: real, intensityThreshold: int)

  const DefaultConfig := Config(0.0, 0.0, 5.0, 100)

  // ==== Elevations ====

  /** numpy.arange(start, stop, step): ceil((stop - start) / step) values start + i * step. */
  function Arange(start: real, stop: real, step: real): (s: seq<real>)
    requires step != 0.0
    ensures forall i :: 0 <= i < |s| ==> s[i] == start + i as real * step
  {
    var n := Ceil((stop - start) / step);
    seq(if n < 0 then 0 else n, i requires 0 <= i => start + i as real * step)
  }

  /** The constructor's elevations: the assertion, then arange from min to max inclusive of one more step. */
  function ElevationsOf(cfg: Config, math: PcMath): (r: Result<seq<real>, PcError>)
    ensures r == Failure(AssertionFailed) <==> cfg.maxElevDeg < cfg.minElevDeg
    ensures r.Success? <==> cfg.maxElevDeg >= cfg.minElevDeg && math.radians(cfg.elevStepDeg) != 0.0
  {
    if cfg.maxElevDeg < cfg.minElevDeg then Failure(AssertionFailed)
    else
      var step := math.radians(cfg.elevStepDeg);
      if step == 0.0 then Failure(ZeroStep)
      else Success(Arange(math.radians(cfg.minElevDeg), math.radians(cfg.maxElevDeg) + step, step))
  }

  // ==== make_intensity_lookup: packing ====

  /** struct.unpack('I', ...) of four bytes in the platform's order. */
  function UnpackU32(b: seq<Byte>, order: ByteOrder): (v: nat)
    requires |b| == 4
    ensures v < 0x1_0000_0000
  {
    var b0, b1, b2, b3: int := b[0], b[1], b[2], b[3];
    match order
    case LittleEndian => b0 + 256 * b1 + 65536 * b2 + 16777216 * b3
    case BigEndian => b3 + 256 * b2 + 65536 * b1 + 16777216 * b0
  }

  /** The four bytes a uint32 occupies in memory, in the platform's order. */
  function U32Bytes(v: nat, order: ByteOrder): (b: seq<Byte>)
    requires v < 0x1_0000_0000
    ensures |b| == 4
  {
    var lsbFirst := [v % 256, (v / 256) % 256, (v / 65536) % 256, v / 16777216];
    match order
    case LittleEndian => lsbFirst
    case BigEndian => [lsbFirst[3], lsbFirst[2], lsbFirst[1], lsbFirst[0]]
  }

  lemma {:induction false} LsbFirstOfValue(b0: Byte, b1: Byte, b2: Byte, b3: Byte)
    ensures var v := b0 + 256 * b1 + 65536 * b2 + 16777216 * b3;
      v % 256 == b0 && (v / 256) % 256 == b1 && (v / 65536) % 256 == b2 && v / 16777216 == b3
  {
    var v := b0 + 256 * b1 + 65536 * b2 + 16777216 * b3;
    assert v == (b1 + 256 * b2 + 65536 * b3) * 256 + b0;
    assert v / 256 == b1 + 256 * b2 + 65536 * b3;
    assert v / 256 == (b2 + 256 * b3) * 256 + b1;
    assert v / 65536 == b2 + 256 * b3 by {
      assert v == (b2 + 256 * b3) * 65536 + (b0 + 256 * b1);
    }
    assert v / 65536 == b3 * 256 + b2;
    assert v / 16777216 == b3 by {
      assert v == b3 * 16777216 + (b0 + 256 * b1 + 65536 * b2);
    }
  }

  /** Unpacking four bytes and storing the value again gives back the same four bytes. */
  lemma {:induction false} PackRoundTrip(b: seq<Byte>, order: ByteOrder)
    requires |b| == 4
    ensures U32Bytes(UnpackU32(b, order), order) == b
  {
    match order
    case LittleEndian => LsbFirstOfValue(b[0], b[1], b[2], b[3]);
    case BigEndian => LsbFirstOfValue(b[3], b[2], b[1], b[0]);
  }

  /** Entry aa of the colour table: bytes (bb, gg, rr, aa) read as one native uint32. */
  function LookupEntry(colormap: Colormap, order: ByteOrder, aa: Byte): nat {
    var (rr, gg, bb) := colormap(aa);
    UnpackU32([bb, gg, rr, aa], order)
  }

  /** make_intensity_lookup() as a value. */
  function LookupTable(colormap: Colormap, order: ByteOrder): (table: seq<nat>)
    ensures |table| == 256
  {
    seq(256, aa requires 0 <= aa < 256 => LookupEntry(colormap, order, aa))
  }

  /**
   * Every entry stores blue, green, red and then the entry's own index as
   * alpha, in memory order, whatever the platform's byte order; on a
   * little-endian platform alpha is the most significant byte.
   */
  lemma {:induction false} LookupBytes(colormap: Colormap, order: ByteOrder, aa: Byte)
    ensures LookupTable(colormap, order)[aa] < 0x1_0000_0000
    ensures var (rr, gg, bb) := colormap(aa);
      U32Bytes(LookupTable(colormap, order)[aa], order) == [bb, gg, rr, aa]
    ensures order == LittleEndian ==> LookupTable(colormap, order)[aa] / 16777216 == aa
  {
    var (rr, gg, bb) := colormap(aa);
    PackRoundTrip([bb, gg, rr, aa], order);
    if order == LittleEndian {
      LsbFirstOfValue(bb, gg, rr, aa);
    }
  }

  // ==== make_geometry: layout ====

  /** Where the point for beam ii at range jj goes: ii + jj * nangles. */
  function Slot(ii: nat, jj: nat, nangles: nat): nat {
    ii + jj * nangles
  }

  /** Every beam and range has a slot inside the row, and no two share one. */
  lemma {:induction false} SlotLayout(ii: nat, jj: nat, ii': nat, jj': nat, nangles: nat, nranges: nat)
    requires ii < nangles && jj < nranges && ii' < nangles && jj' < nranges
    ensures Slot(ii, jj, nangles) < nranges * nangles
    ensures Slot(ii, jj, nangles) == Slot(ii', jj', nangles) ==> ii == ii' && jj == jj'
  {
    SplitBound(nangles, jj, ii, nranges);
    if Slot(ii, jj, nangles) == Slot(ii', jj', nangles) {
      UniqueSplit(nangles, jj, ii, jj', ii');
    }
  }

  /** Every slot of the row belongs to exactly one beam and range: idx % nangles and idx / nangles. */
  lemma {:induction false} SlotOfIndex(idx: nat, nangles: nat, nranges: nat)
    requires idx < nranges * nangles
    ensures nangles > 0 && idx % nangles < nangles && idx / nangles < nranges
    ensures Slot(idx % nangles, idx / nangles, nangles) == idx
  {
    SplitOf(idx, nangles, nranges);
  }

  function GeometryPoint(elevation: real, azimuth: real, distance: real, math: PcMath): Point3 {
    var ce, se := math.cos(elevation), math.sin(elevation);
    var ca, sa := math.cos(azimuth), math.sin(azimuth);
    Point3(distance * ce * ca, distance * ce * sa, distance * se)
  }

  /** make_geometry() as a value: per elevation, the point of every slot. */
  function GeometryOf(elevations: seq<real>, msg: SonarImage, math: PcMath): (g: seq<seq<Point3>>)
    ensures |g| == |elevations|
    ensures forall kk :: 0 <= kk < |g| ==> |g[kk]| == |msg.ranges| * |msg.azimuthAngles|
  {
    var nranges, nangles := |msg.ranges|, |msg.azimuthAngles|;
    seq(|elevations|, kk requires 0 <= kk < |elevations| =>
      seq(nranges * nangles, idx requires 0 <= idx < nranges * nangles =>
        SlotOfIndex(idx, nangles, nranges);
        GeometryPoint(elevations[kk], msg.azimuthAngles[idx % nangles], msg.ranges[idx / nangles], math)))
  }

  /** The point of beam ii at range jj and elevation kk sits at slot ii + jj * nangles of row kk. */
  lemma {:induction false} GeometryLayout(elevations: seq<real>, msg: SonarImage, math: PcMath, kk: nat, ii: nat, jj: nat)
    requires kk < |elevations| && ii < |msg.azimuthAngles| && jj < |msg.ranges|
    ensures Slot(ii, jj, |msg.azimuthAngles|) < |GeometryOf(elevations, msg, math)[kk]|
    ensures GeometryOf(elevations, msg, math)[kk][Slot(ii, jj, |msg.azimuthAngles|)]
      == GeometryPoint(elevations[kk], msg.azimuthAngles[ii], msg.ranges[jj], math)
  {
    var nangles := |msg.azimuthAngles|;
    SlotLayout(ii, jj, ii, jj, nangles, |msg.ranges|);
    SplitRecovered(nangles, jj, ii);
    assert Slot(ii, jj, nangles) == jj * nangles + ii;
  }

  /**
   * For single-byte samples the point layout is the byte layout of the
   * image decoder: slot ii + jj * nangles is the offset of bearing ii at
   * range jj.
   */
  lemma SlotIsSampleOffset(msg: SonarImageMsgInterface.SonarImageMsg, ii: nat, jj: nat)
    requires msg.dataSize == 1
    ensures Slot(ii, jj, msg.nBearings)
      == SonarImageMsgInterface.Offset(msg, AbstractSonarInterface.AzimuthRangeIndices(ii, jj))
  {
  }

  // ==== callback: colouring ====

  /** The colour of a sample: 0 at or below the threshold, else the table entry aa - threshold. */
  function Colour(aa: Byte, threshold: int, lookup: seq<nat>): (r: Result<nat, PcError>)
    requires |lookup| == 256
    ensures r.Failure? <==> aa - threshold >= |lookup|
    ensures r.Failure? ==> r.error == IndexError
  {
    if aa > threshold then
      if aa - threshold < |lookup| then Success(lookup[aa - threshold]) else Failure(IndexError)
    else Success(0)
  }

  /** A geometry point carrying a colour. */
  function Placed(p: Point3, rgba: nat): CloudPoint {
    CloudPoint(p.x, p.y, p.z, rgba)
  }

  /** The colour comprehension of one elevation: zip the row with the samples, colour each. */
  function RowPoints(row: seq<Point3>, intensities: seq<Byte>, threshold: int, lookup: seq<nat>): Result<seq<CloudPoint>, PcError>
    requires |lookup| == 256
  {
    if row == [] || intensities == [] then Success([])
    else
      match Colour(intensities[0], threshold, lookup)
      case Failure(e) => Failure(e)
      case Success(c) =>
        match RowPoints(row[1..], intensities[1..], threshold, lookup)
        case Failure(e) => Failure(e)
        case Success(rest) => Success([Placed(row[0], c)] + rest)
  }

  /** The length of zip() over sequences of lengths a and b. */
  function ZipLength(a: nat, b: nat): nat { if a <= b then a else b }

  /**
   * A row succeeds iff every zipped sample has a colour; it then holds one
   * point per zipped pair, in order, at the row's position with the sample's colour.
   */
  lemma {:induction false} RowPointsLayout(row: seq<Point3>, intensities: seq<Byte>, threshold: int, lookup: seq<nat>)
    requires |lookup| == 256
    ensures var r := RowPoints(row, intensities, threshold, lookup);
      && (r.Success? <==> forall i :: 0 <= i < ZipLength(|row|, |intensities|) ==> Colour(intensities[i], threshold, lookup).Success?)
      && (r.Success? ==>
          && |r.value| == ZipLength(|row|, |intensities|)
          && forall i :: 0 <= i < |r.value| ==>
               r.value[i] == Placed(row[i], Colour(intensities[i], threshold, lookup).value))
  {
    if row != [] && intensities != [] {
      RowPointsLayout(row[1..], intensities[1..], threshold, lookup);
      var n := ZipLength(|row|, |intensities|);
      assert forall i :: 1 <= i < n ==> row[1..][i - 1] == row[i] && intensities[1..][i - 1] == intensities[i];
      if forall i :: 0 <= i < n ==> Colour(intensities[i], threshold, lookup).Success? {
        assert Colour(intensities[0], threshold, lookup).Success?;
        assert forall i :: 0 <= i < n - 1 ==> Colour(intensities[1..][i], threshold, lookup).Success?;
      } else {
        var i :| 0 <= i < n && Colour(intensities[i], threshold, lookup).Failure?;
        if i > 0 {
          assert Colour(intensities[1..][i - 1], threshold, lookup).Failure?;
        }
      }
    }
  }

  /** A threshold within 0..255 colours every sample: the table index aa - threshold stays below 256. */
  lemma ByteThresholdNeverFails(aa: Byte, threshold: int, lookup: seq<nat>)
    requires |lookup| == 256 && 0 <= threshold
    ensures Colour(aa, threshold, lookup).Success?
    ensures aa <= threshold ==> Colour(aa, threshold, lookup).value == 0
    ensures aa > threshold ==> Colour(aa, threshold, lookup).value == lookup[aa - threshold]
  {
  }

  /** With a negative threshold the bright samples index past the table. */
  lemma NegativeThresholdFails(aa: Byte, threshold: int, lookup: seq<nat>)
    requires |lookup| == 256 && aa - threshold >= 256
    ensures Colour(aa, threshold, lookup) == Failure(IndexError)
  {
  }

  /** An above-threshold sample's colour carries alpha aa - threshold, not aa. */
  lemma {:induction false} ColourAlpha(colormap: Colormap, order: ByteOrder, aa: Byte, threshold: int)
    requires 0 <= threshold < aa
    ensures var c := Colour(aa, threshold, LookupTable(colormap, order));
      c.Success? && c.value < 0x1_0000_0000 && U32Bytes(c.value, order)[3] == aa - threshold
  {
    LookupBytes(colormap, order, aa - threshold);
  }

  /** The cloud: every elevation's row in turn, failing with the first row that fails. */
  function CloudOf(geometry: seq<seq<Point3>>, intensities: seq<Byte>, threshold: int, lookup: seq<nat>)
    : (r: Result<seq<CloudPoint>, PcError>)
    requires |lookup| == 256
    ensures r.Success? <==> forall k :: 0 <= k < |geometry| ==> RowPoints(geometry[k], intensities, threshold, lookup).Success?
  {
    if geometry == [] then Success([])
    else
      assert forall k :: 0 <= k < |geometry| - 1 ==> geometry[..|geometry| - 1][k] == geometry[k];
      match CloudOf(geometry[..|geometry| - 1], intensities, threshold, lookup)
      case Failure(e) => Failure(e)
      case Success(points) =>
        match RowPoints(geometry[|geometry| - 1], intensities, threshold, lookup)
        case Failure(e) => Failure(e)
        case Success(pts) => Success(points + pts)
  }

  /** Blocks laid end to end, in order. */
  function Concat(blocks: seq<seq<CloudPoint>>): seq<CloudPoint> {
    if blocks == [] then [] else Concat(blocks[..|blocks| - 1]) + blocks[|blocks| - 1]
  }

  /** Where block k starts in the concatenation: the length of the blocks before it. */
  function Start(blocks: seq<seq<CloudPoint>>, k: nat): nat
    requires k <= |blocks|
  {
    |Concat(blocks[..k])|
  }

  /** Point i of block k sits at Start(blocks, k) + i of the concatenation. */
  lemma {:induction false} ConcatAt(blocks: seq<seq<CloudPoint>>, k: nat, i: nat)
    requires k < |blocks| && i < |blocks[k]|
    ensures Start(blocks, k) + i < |Concat(blocks)|
    ensures Concat(blocks)[Start(blocks, k) + i] == blocks[k][i]
  {
    var init := blocks[..|blocks| - 1];
    assert Concat(blocks) == Concat(init) + blocks[|blocks| - 1];
    if k == |blocks| - 1 {
      assert blocks[..k] == init;
    } else {
      ConcatAt(init, k, i);
      assert init[..k] == blocks[..k];
      assert init[k] == blocks[k];
    }
  }

  /** With blocks of m points each, block k starts at k * m. */
  lemma {:induction false} StartOfEqualBlocks(blocks: seq<seq<CloudPoint>>, m: nat, k: nat)
    requires forall j :: 0 <= j < |blocks| ==> |blocks[j]| == m
    requires k <= |blocks|
    ensures Start(blocks, k) == k * m
  {
    if k > 0 {
      StartOfEqualBlocks(blocks, m, k - 1);
      assert blocks[..k][..k - 1] == blocks[..k - 1];
      assert Concat(blocks[..k]) == Concat(blocks[..k - 1]) + blocks[k - 1];
      MulSucc(k - 1, m);
    }
  }

  lemma MulSucc(a: nat, m: nat)
    ensures (a + 1) * m == a * m + m
  {
  }

  /** The colours of one row, for a row whose samples all have colours. */
  function RowValues(row: seq<Point3>, intensities: seq<Byte>, threshold: int, lookup: seq<nat>): seq<CloudPoint>
    requires |lookup| == 256
  {
    var r := RowPoints(row, intensities, threshold, lookup);
    if r.Success? then r.value else []
  }

  /** When every sample has a colour, the cloud is the rows' points laid end to end. */
  lemma {:induction false} CloudIsConcat(geometry: seq<seq<Point3>>, intensities: seq<Byte>, threshold: int, lookup: seq<nat>)
    requires |lookup| == 256
    requires forall k :: 0 <= k < |geometry| ==> RowPoints(geometry[k], intensities, threshold, lookup).Success?
    ensures CloudOf(geometry, intensities, threshold, lookup)
      == Success(Concat(seq(|geometry|, k requires 0 <= k < |geometry| => RowValues(geometry[k], intensities, threshold, lookup))))
  {
    var blocks := seq(|geometry|, k requires 0 <= k < |geometry| => RowValues(geometry[k], intensities, threshold, lookup));
    if geometry != [] {
      var init := geometry[..|geometry| - 1];
      CloudIsConcat(init, intensities, threshold, lookup);
      assert blocks[..|blocks| - 1]
        == seq(|init|, k requires 0 <= k < |init| => RowValues(init[k], intensities, threshold, lookup));
    }
  }

  /** The first m samples have colours: none of them indexes past the table. */
  predicate Coloured(intensities: seq<Byte>, m: nat, threshold: int, lookup: seq<nat>)
    requires |lookup| == 256
  {
    forall i :: 0 <= i < m && i < |intensities| ==> Colour(intensities[i], threshold, lookup).Success?
  }

  /** Rows of L points each. */
  predicate RowsOfLength(geometry: seq<seq<Point3>>, L: nat) {
    forall k :: 0 <= k < |geometry| ==> |geometry[k]| == L
  }

  /** A row all of whose samples have colours yields one point per sample. */
  lemma RowColoured(row: seq<Point3>, intensities: seq<Byte>, threshold: int, lookup: seq<nat>)
    requires |lookup| == 256
    requires Coloured(intensities, |row|, threshold, lookup)
    ensures RowPoints(row, intensities, threshold, lookup).Success?
    ensures |RowValues(row, intensities, threshold, lookup)| == ZipLength(|row|, |intensities|)
  {
    RowPointsLayout(row, intensities, threshold, lookup);
  }

  /** Where sample i of elevation k lands in an elevation-major cloud of m points per elevation. */
  function CloudPos(k: nat, m: nat, i: nat): nat {
    k * m + i
  }

  /** Rows of L points over samples that all have colours each yield one point per zipped sample. */
  lemma ColouredRows(geometry: seq<seq<Point3>>, intensities: seq<Byte>, threshold: int, lookup: seq<nat>, L: nat)
    requires |lookup| == 256
    requires RowsOfLength(geometry, L) && Coloured(intensities, L, threshold, lookup)
    ensures forall j :: 0 <= j < |geometry| ==>
      && RowPoints(geometry[j], intensities, threshold, lookup).Success?
      && |RowValues(geometry[j], intensities, threshold, lookup)| == ZipLength(L, |intensities|)
  {
    forall j | 0 <= j < |geometry|
      ensures RowPoints(geometry[j], intensities, threshold, lookup).Success?
      ensures |RowValues(geometry[j], intensities, threshold, lookup)| == ZipLength(L, |intensities|)
    {
      assert |geometry[j]| == L;
      RowColoured(geometry[j], intensities, threshold, lookup);
    }
  }

  /**
   * Elevation-major output: with rows of length L each and m = min(L, number
   * of samples), the cloud has one block of m points per elevation, and
   * point k * m + i is sample i placed at elevation k.
   */
  lemma {:induction false} CloudLayout(geometry: seq<seq<Point3>>, intensities: seq<Byte>, threshold: int, lookup: seq<nat>, L: nat, k: nat, i: nat)
    requires |lookup| == 256
    requires RowsOfLength(geometry, L) && Coloured(intensities, L, threshold, lookup)
    requires k < |geometry| && i < ZipLength(L, |intensities|)
    ensures var r, m := CloudOf(geometry, intensities, threshold, lookup), ZipLength(L, |intensities|);
      && r.Success? && |r.value| == |geometry| * m
      && CloudPos(k, m, i) < |r.value|
      && r.value[CloudPos(k, m, i)] == Placed(geometry[k][i], Colour(intensities[i], threshold, lookup).value)
  {
    var m := ZipLength(L, |intensities|);
    ColouredRows(geometry, intensities, threshold, lookup, L);
    var blocks := seq(|geometry|, j requires 0 <= j < |geometry| => RowValues(geometry[j], intensities, threshold, lookup));
    assert forall j :: 0 <= j < |blocks| ==> |blocks[j]| == m;
    RowPointsLayout(geometry[k], intensities, threshold, lookup);
    CloudIsConcat(geometry, intensities, threshold, lookup);
    EqualBlocksAt(blocks, m, k, i);
  }

  /** Blocks of m points each: point i of block k sits at k * m + i of their concatenation. */
  lemma EqualBlocksAt(blocks: seq<seq<CloudPoint>>, m: nat, k: nat, i: nat)
    requires forall j :: 0 <= j < |blocks| ==> |blocks[j]| == m
    requires k < |blocks| && i < m
    ensures |Concat(blocks)| == |blocks| * m
    ensures CloudPos(k, m, i) < |Concat(blocks)| && Concat(blocks)[CloudPos(k, m, i)] == blocks[k][i]
  {
    StartOfEqualBlocks(blocks, m, |blocks|);
    assert blocks[..|blocks|] == blocks;
    StartOfEqualBlocks(blocks, m, k);
    ConcatAt(blocks, k, i);
  }


  // ==== The node ====

  /** Everything a translator is configured with. */
  datatype Setup = Setup(math: PcMath, colormap: Colormap, order: ByteOrder, elevations: seq<real>, threshold: int)

  /** The translator's two lazily built tables. */
  datatype TranslatorState = TranslatorState(geometry: Option<seq<seq<Point3>>>, lookup: Option<seq<nat>>)

  /** A lookup, when present, always has 256 entries. */
  predicate StateValid(s: TranslatorState) {
    s.lookup.Some? ==> |s.lookup.value| == 256
  }

  /**
   * callback(): refuse multi-byte samples before building anything; build
   * geometry and table only if absent; then colour the cloud.
   */
  function CallbackStep(s: TranslatorState, msg: SonarImage, setup: Setup): (r: (TranslatorState, Result<seq<CloudPoint>, PcError>))
    requires StateValid(s)
    ensures StateValid(r.0)
  {
    if msg.dataSize != 1 then (s, Failure(NotImplemented))
    else
      var geometry := if s.geometry.Some? then s.geometry.value else GeometryOf(setup.elevations, msg, setup.math);
      var lookup := if s.lookup.Some? then s.lookup.value else LookupTable(setup.colormap, setup.order);
      (TranslatorState(Some(geometry), Some(lookup)), CloudOf(geometry, msg.intensities, setup.threshold, lookup))
  }

  /** A message with multi-byte samples raises before any table is built: the state is untouched. */
  lemma MultiByteRaisesFirst(s: TranslatorState, msg: SonarImage, setup: Setup)
    requires StateValid(s) && msg.dataSize != 1
    ensures CallbackStep(s, msg, setup) == (s, Failure(NotImplemented))
  {
  }

  /** The first single-byte message builds the geometry from its own ranges and beams. */
  lemma FirstMessageBuildsTables(msg: SonarImage, setup: Setup)
    requires msg.dataSize == 1
    ensures CallbackStep(TranslatorState(None, None), msg, setup).0
      == TranslatorState(Some(GeometryOf(setup.elevations, msg, setup.math)), Some(LookupTable(setup.colormap, setup.order)))
  {
  }

  /**
   * Tables once built are never rebuilt: a later message with other ranges or
   * beams is zipped against the first message's geometry.
   */
  lemma {:induction false} TablesBuiltOnce(s: TranslatorState, msg: SonarImage, setup: Setup)
    requires StateValid(s) && s.geometry.Some? && s.lookup.Some?
    ensures CallbackStep(s, msg, setup).0 == s
    ensures msg.dataSize == 1 ==>
      CallbackStep(s, msg, setup).1 == CloudOf(s.geometry.value, msg.intensities, setup.threshold, s.lookup.value)
  {
  }

  /** The first single-byte message is coloured against the tables it has just built. */
  lemma FirstMessageCloud(msg: SonarImage, setup: Setup)
    requires msg.dataSize == 1
    ensures CallbackStep(TranslatorState(None, None), msg, setup).1
      == CloudOf(GeometryOf(setup.elevations, msg, setup.math), msg.intensities, setup.threshold, LookupTable(setup.colormap, setup.order))
  {
  }

  /**
   * For a first message whose sample count is the beam-by-range count and
   * whose samples all have colours, the cloud holds every sample once per
   * elevation, elevation-major, at its geometric position.
   */
  lemma {:induction false} FirstCloudLayout(msg: SonarImage, setup: Setup, kk: nat, ii: nat, jj: nat)
    requires msg.dataSize == 1 && |msg.intensities| == |msg.ranges| * |msg.azimuthAngles|
    requires Coloured(msg.intensities, |msg.intensities|, setup.threshold, LookupTable(setup.colormap, setup.order))
    requires kk < |setup.elevations| && ii < |msg.azimuthAngles| && jj < |msg.ranges|
    ensures var r := CallbackStep(TranslatorState(None, None), msg, setup).1;
      var n, slot := |msg.intensities|, Slot(ii, jj, |msg.azimuthAngles|);
      && r.Success? && |r.value| == |setup.elevations| * n
      && slot < n && CloudPos(kk, n, slot) < |r.value|
      && r.value[CloudPos(kk, n, slot)]
         == Placed(GeometryPoint(setup.elevations[kk], msg.azimuthAngles[ii], msg.ranges[jj], setup.math),
                   Colour(msg.intensities[slot], setup.threshold, LookupTable(setup.colormap, setup.order)).value)
  {
    var geometry := GeometryOf(setup.elevations, msg, setup.math);
    var lookup := LookupTable(setup.colormap, setup.order);
    var n := |msg.intensities|;
    var slot := Slot(ii, jj, |msg.azimuthAngles|);
    FirstMessageCloud(msg, setup);
    GeometryLayout(setup.elevations, msg, setup.math, kk, ii, jj);
    assert ZipLength(n, n) == n && slot < n;
    CloudLayout(geometry, msg.intensities, setup.threshold, lookup, n, kk, slot);
  }

  /** A SonarTranslator node. */
  class SonarTranslator {
    const setup: Setup
    var geometry: Option<seq<seq<Point3>>>
    var intensityLookup: Option<seq<nat>>

    function State(): TranslatorState
      reads this
    {
      TranslatorState(geometry, intensityLookup)
    }

    /** __init__(): the elevations of a configuration that passes the assertion; no tables yet. */
    constructor(cfg: Config, math: PcMath, colormap: Colormap, order: ByteOrder)
      requires ElevationsOf(cfg, math).Success?
      ensures setup == Setup(math, colormap, order, ElevationsOf(cfg, math).value, cfg.intensityThreshold)
      ensures State() == TranslatorState(None, None)
    {
      setup := Setup(math, colormap, order, ElevationsOf(cfg, math).value, cfg.intensityThreshold);
      geometry := None;
      intensityLookup := None;
    }

    /** make_intensity_lookup(): a 256-entry list filled entry by entry. */
    method MakeIntensityLookup()
      modifies this
      ensures intensityLookup == Some(LookupTable(setup.colormap, setup.order))
      ensures geometry == old(geometry)
    {
      var table := new nat[256](_ => 0);
      var aa := 0;
      while aa < 256
        modifies table
        invariant 0 <= aa <= 256
        invariant forall a :: 0 <= a < aa ==> table[a] == LookupEntry(setup.colormap, setup.order, a)
      {
        var (rr, gg, bb) := setup.colormap(aa);
        table[aa] := UnpackU32([bb, gg, rr, aa], setup.order);
        aa := aa + 1;
      }
      assert table[..] == LookupTable(setup.colormap, setup.order);
      intensityLookup := Some(table[..]);
    }

    /** make_geometry(): per elevation, per beam, per range, write slot ii + jj * nangles of a zeroed list. */
    method MakeGeometry(msg: SonarImage)
      modifies this
      ensures geometry == Some(GeometryOf(setup.elevations, msg, setup.math))
      ensures intensityLookup == old(intensityLookup)
    {
      var elevations, math := setup.elevations, setup.math;
      var nranges, nangles := |msg.ranges|, |msg.azimuthAngles|;
      ghost var g := GeometryOf(elevations, msg, math);
      assert RowsOfSlots(g, nangles, nranges);
      var points := seq(|elevations|, _ => seq(nranges * nangles, _ => Origin));
      var kk := 0;
      while kk < |elevations|
        modifies {}
        invariant 0 <= kk <= |elevations|
        invariant Progress(points, g, nangles, kk, 0, 0)
      {
        var ii := 0;
        while ii < nangles
          invariant 0 <= ii <= nangles
          invariant Progress(points, g, nangles, kk, ii, 0)
        {
          var jj := 0;
          while jj < nranges
            invariant 0 <= jj <= nranges
            invariant Progress(points, g, nangles, kk, ii, jj)
          {
            ProgressWrite(points, elevations, msg, math, g, kk, ii, jj);
            var idx := Slot(ii, jj, nangles);
            points := points[kk := points[kk][idx := GeometryPoint(elevations[kk], msg.azimuthAngles[ii], msg.ranges[jj], math)]];
            jj := jj + 1;
          }
          ProgressBeamDone(points, g, nangles, nranges, kk, ii);
          ii := ii + 1;
        }
        ProgressElevationDone(points, g, nangles, nranges, kk);
        kk := kk + 1;
      }
      ProgressComplete(points, elevations, msg, math, g);
      geometry := Some(points);
    }

    /** callback(): the data-size check, the lazy tables, then the cloud row by row. */
    method Callback(msg: SonarImage) returns (r: Result<seq<CloudPoint>, PcError>)
      requires StateValid(State())
      modifies this
      ensures (State(), r) == CallbackStep(old(State()), msg, setup)
    {
      if msg.dataSize != 1 {
        return Failure(NotImplemented);
      }
      if geometry.None? {
        MakeGeometry(msg);
      }
      if intensityLookup.None? {
        MakeIntensityLookup();
      }
      var rows, lookup := geometry.value, intensityLookup.value;
      var points := [];
      var k := 0;
      while k < |rows|
        invariant 0 <= k <= |rows|
        invariant CloudOf(rows[..k], msg.intensities, setup.threshold, lookup) == Success(points)
      {
        assert rows[..k + 1][..k] == rows[..k];
        var pts := RowPoints(rows[k], msg.intensities, setup.threshold, lookup);
        if pts.Failure? {
          CloudFailsFrom(rows, k, msg.intensities, setup.threshold, lookup);
          return Failure(pts.error);
        }
        points := points + pts.value;
        k := k + 1;
      }
      assert rows[..k] == rows;
      r := Success(points);
    }
  }

  const Origin := Point3(0.0, 0.0, 0.0)

  /** (kk', ii', jj') is visited before (kk, ii, jj) by make_geometry's loops. */
  ghost predicate Done(kk': nat, ii': nat, jj': nat, kk: nat, ii: nat, jj: nat) {
    kk' < kk || (kk' == kk && (ii' < ii || (ii' == ii && jj' < jj)))
  }

  /** Slot idx of row kk' has been written before (kk, ii, jj). */
  ghost predicate SlotDone(kk': nat, idx: nat, nangles: nat, kk: nat, ii: nat, jj: nat) {
    nangles > 0 && Done(kk', idx % nangles, idx / nangles, kk, ii, jj)
  }

  /** Every slot written so far holds its geometry; the others are still zero. */
  ghost predicate Progress(points: seq<seq<Point3>>, g: seq<seq<Point3>>, nangles: nat, kk: nat, ii: nat, jj: nat) {
    && |points| == |g|
    && (forall k :: 0 <= k < |g| ==> |points[k]| == |g[k]|)
    && forall k, idx :: 0 <= k < |g| && 0 <= idx < |g[k]| ==>
         points[k][idx] == if SlotDone(k, idx, nangles, kk, ii, jj) then g[k][idx] else Origin
  }

  /** Writing the point of (kk, ii, jj) into its slot advances the progress by one range. */
  lemma {:induction false} ProgressWrite(points: seq<seq<Point3>>, elevations: seq<real>, msg: SonarImage, math: PcMath,
                                         g: seq<seq<Point3>>, kk: nat, ii: nat, jj: nat)
    requires g == GeometryOf(elevations, msg, math) && Progress(points, g, |msg.azimuthAngles|, kk, ii, jj)
    requires kk < |elevations| && ii < |msg.azimuthAngles| && jj < |msg.ranges|
    ensures Slot(ii, jj, |msg.azimuthAngles|) < |points[kk]|
    ensures Progress(points[kk := points[kk][Slot(ii, jj, |msg.azimuthAngles|) :=
                       GeometryPoint(elevations[kk], msg.azimuthAngles[ii], msg.ranges[jj], math)]],
                     g, |msg.azimuthAngles|, kk, ii, jj + 1)
  {
    var nangles, nranges := |msg.azimuthAngles|, |msg.ranges|;
    var slot := Slot(ii, jj, nangles);
    var p := GeometryPoint(elevations[kk], msg.azimuthAngles[ii], msg.ranges[jj], math);
    GeometryLayout(elevations, msg, math, kk, ii, jj);
    SplitRecovered(nangles, jj, ii);
    var points' := points[kk := points[kk][slot := p]];
    forall k, idx | 0 <= k < |g| && 0 <= idx < |g[k]|
      ensures points'[k][idx] == if SlotDone(k, idx, nangles, kk, ii, jj + 1) then g[k][idx] else Origin
    {
      SlotOfIndex(idx, nangles, nranges);
      if k == kk && idx == slot {
        assert idx % nangles == ii && idx / nangles == jj;
      } else {
        assert SlotDone(k, idx, nangles, kk, ii, jj + 1) == SlotDone(k, idx, nangles, kk, ii, jj);
      }
    }
  }

  /** Past the last range of beam ii comes the first range of beam ii + 1. */
  lemma DoneBeamStep(k: nat, i: nat, j: nat, kk: nat, ii: nat, nranges: nat)
    requires j < nranges
    ensures Done(k, i, j, kk, ii, nranges) == Done(k, i, j, kk, ii + 1, 0)
  {
  }

  /** Past the last beam of elevation kk comes the first beam of elevation kk + 1. */
  lemma DoneElevationStep(k: nat, i: nat, j: nat, kk: nat, nangles: nat)
    requires i < nangles
    ensures Done(k, i, j, kk, nangles, 0) == Done(k, i, j, kk + 1, 0, 0)
  {
  }

  /** Rows of nranges * nangles slots each. */
  ghost predicate RowsOfSlots(g: seq<seq<Point3>>, nangles: nat, nranges: nat) {
    forall k :: 0 <= k < |g| ==> |g[k]| == nranges * nangles
  }

  /** After the last range of beam ii, the progress moves to beam ii + 1. */
  lemma {:induction false} ProgressBeamDone(points: seq<seq<Point3>>, g: seq<seq<Point3>>, nangles: nat, nranges: nat, kk: nat, ii: nat)
    requires RowsOfSlots(g, nangles, nranges)
    requires Progress(points, g, nangles, kk, ii, nranges)
    ensures Progress(points, g, nangles, kk, ii + 1, 0)
  {
    forall k, idx | 0 <= k < |g| && 0 <= idx < |g[k]|
      ensures points[k][idx] == if SlotDone(k, idx, nangles, kk, ii + 1, 0) then g[k][idx] else Origin
    {
      SlotDoneBeamStep(k, idx, nangles, nranges, kk, ii);
    }
  }

  lemma SlotDoneBeamStep(k: nat, idx: nat, nangles: nat, nranges: nat, kk: nat, ii: nat)
    requires idx < nranges * nangles
    ensures SlotDone(k, idx, nangles, kk, ii, nranges) == SlotDone(k, idx, nangles, kk, ii + 1, 0)
  {
    SlotOfIndex(idx, nangles, nranges);
    DoneBeamStep(k, idx % nangles, idx / nangles, kk, ii, nranges);
  }

  /** After the last beam of elevation kk, the progress moves to elevation kk + 1. */
  lemma {:induction false} ProgressElevationDone(points: seq<seq<Point3>>, g: seq<seq<Point3>>, nangles: nat, nranges: nat, kk: nat)
    requires RowsOfSlots(g, nangles, nranges)
    requires Progress(points, g, nangles, kk, nangles, 0)
    ensures Progress(points, g, nangles, kk + 1, 0, 0)
  {
    forall k, idx | 0 <= k < |g| && 0 <= idx < |g[k]|
      ensures points[k][idx] == if SlotDone(k, idx, nangles, kk + 1, 0, 0) then g[k][idx] else Origin
    {
      SlotDoneElevationStep(k, idx, nangles, nranges, kk);
    }
  }

  lemma SlotDoneElevationStep(k: nat, idx: nat, nangles: nat, nranges: nat, kk: nat)
    requires idx < nranges * nangles
    ensures SlotDone(k, idx, nangles, kk, nangles, 0) == SlotDone(k, idx, nangles, kk + 1, 0, 0)
  {
    SlotOfIndex(idx, nangles, nranges);
    DoneElevationStep(k, idx % nangles, idx / nangles, kk, nangles);
  }

  /** After the last elevation every slot holds its geometry. */
  lemma {:induction false} ProgressComplete(points: seq<seq<Point3>>, elevations: seq<real>, msg: SonarImage, math: PcMath,
                                            g: seq<seq<Point3>>)
    requires g == GeometryOf(elevations, msg, math)
    requires Progress(points, g, |msg.azimuthAngles|, |elevations|, 0, 0)
    ensures points == g
  {
    forall k | 0 <= k < |g|
      ensures points[k] == g[k]
    {
      forall idx | 0 <= idx < |g[k]|
        ensures points[k][idx] == g[k][idx]
      {
        SlotOfIndex(idx, |msg.azimuthAngles|, |msg.ranges|);
      }
    }
  }

  /** A row that fails makes the whole cloud fail. */
  lemma {:induction false} CloudFailsFrom(rows: seq<seq<Point3>>, k: nat, intensities: seq<Byte>, threshold: int, lookup: seq<nat>)
    requires |lookup| == 256 && k < |rows|
    requires CloudOf(rows[..k], intensities, threshold, lookup).Success?
    requires RowPoints(rows[k], intensities, threshold, lookup).Failure?
    ensures CloudOf(rows, intensities, threshold, lookup) == Failure(RowPoints(rows[k], intensities, threshold, lookup).error)
  {
    assert CloudOf(rows[..k + 1], intensities, threshold, lookup) == Failure(RowPoints(rows[k], intensities, threshold, lookup).error) by {
      assert rows[..k + 1][..k] == rows[..k];
      assert rows[..k + 1][k] == rows[k];
    }
    CloudFailureSticks(rows, k + 1, intensities, threshold, lookup);
  }

  /** Once a prefix of rows fails, every longer prefix fails the same way. */
  lemma {:induction false} CloudFailureSticks(rows: seq<seq<Point3>>, k: nat, intensities: seq<Byte>, threshold: int, lookup: seq<nat>)
    requires |lookup| == 256 && k <= |rows|
    requires CloudOf(rows[..k], intensities, threshold, lookup).Failure?
    ensures CloudOf(rows, intensities, threshold, lookup) == CloudOf(rows[..k], intensities, threshold, lookup)
    decreases |rows| - k
  {
    if k == |rows| {
      assert rows[..k] == rows;
    } else {
      assert rows[..k + 1][..k] == rows[..k];
      CloudFailureSticks(rows, k + 1, intensities, threshold, lookup);
    }
  }
}
