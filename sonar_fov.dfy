/**
 * sonar_fov: the field-of-view wedge of a projected sonar image as a
 * triangle list, regenerated only when the sonar's parameters change.
 *
 * The wedge has 2n + 1 vertices for n beams: the origin at index 0, the arc
 * at the first elevation at 1..n and the arc at the second elevation at
 * n+1..2n. Trigonometry is foreign code (`FovMath`); sums, products and the
 * tolerance test are on reals.
 */
module SonarFov {
  import opened Wrappers

  datatype FovError =
    | EmptyArgument       // min() or max() of an empty sequence
    | BroadcastMismatch   // numpy cannot broadcast the two shapes together
    | NegativeDimension   // numpy asked for an array of negative length

  datatype Point3 = Point3(x: real, y: real, z: real)

  datatype BeamDirection = BeamDirection(x: real, y: real, z: real)

  /** The parts of a ProjectedSonarImage the wedge depends on. */
  datatype SonarImage = SonarImage(beamDirections: seq<BeamDirection>, ranges: seq<real>)

  datatype FovMath = FovMath(cos: real -> real, sin: real -> real, arccos: real -> real, arctan2: (real, real) -> real)

  /** The parameter dictionary, its keys in insertion order. */
  datatype Params = Params(
    range: real,
    elevations: seq<real>,
    azimuthSteps: seq<real>,
    azimuthRanges: seq<real>,
    elevationRanges: seq<real>)

  // ==== sonar_params ====

  function Max(s: seq<real>): (m: real)
    requires |s| > 0
    ensures m in s && forall i :: 0 <= i < |s| ==> s[i] <= m
  {
    if |s| == 1 then s[0]
    else
      var rest := Max(s[1..]);
      assert forall i :: 1 <= i < |s| ==> s[i] == s[1..][i - 1];
      if s[0] >= rest then s[0] else rest
  }

  function Min(s: seq<real>): (m: real)
    requires |s| > 0
    ensures m in s && forall i :: 0 <= i < |s| ==> m <= s[i]
  {
    if |s| == 1 then s[0]
    else
      var rest := Min(s[1..]);
      assert forall i :: 1 <= i < |s| ==> s[i] == s[1..][i - 1];
      if s[0] <= rest then s[0] else rest
  }

  /** numpy.linspace with its endpoint: evenly spaced, first and last exactly start and stop. */
  function Linspace(start: real, stop: real, num: nat): (s: seq<real>)
    requires num >= 2
    ensures |s| == num && s[0] == start && s[num - 1] == stop
  {
    var step := (stop - start) / (num - 1) as real;
    seq(num, i requires 0 <= i < num => if i == num - 1 then stop else start + i as real * step)
  }

  const NumAzimuthSteps: nat := 100

  /** sonar_params(): fails where min() or max() meets an empty sequence. */
  function SonarParams(msg: SonarImage, math: FovMath): (r: Result<Params, FovError>)
    ensures r.Success? <==> |msg.beamDirections| > 0 && |msg.ranges| > 0
    ensures r.Success? ==> ValidParams(r.value)
    ensures r.Success? ==> |r.value.azimuthRanges| == |msg.beamDirections|
  {
    var azimuthRanges := seq(|msg.beamDirections|, i requires 0 <= i < |msg.beamDirections| => msg.beamDirections[i].y);
    if |azimuthRanges| == 0 then Failure(EmptyArgument)
    else
      var azimuthSteps := Linspace(Min(azimuthRanges), Max(azimuthRanges), NumAzimuthSteps);
      var elevationRanges := seq(|msg.beamDirections|, i requires 0 <= i < |msg.beamDirections| => msg.beamDirections[i].z);
      var elevations := Linspace(math.arccos(Max(elevationRanges)), math.arccos(Min(elevationRanges)), 2);
      if |msg.ranges| == 0 then Failure(EmptyArgument)
      else Success(Params(Max(msg.ranges), elevations, azimuthSteps, azimuthRanges, elevationRanges))
  }

  /** What sonar_params always produces: two elevations and one azimuth and elevation per beam, at least one beam. */
  predicate ValidParams(p: Params) {
    |p.elevations| == 2 && |p.azimuthRanges| == |p.elevationRanges| >= 1
  }

  // ==== build_vector_list: vertices ====

  /** The end points of every beam at one elevation. */
  function Arc(p: Params, elevation: real, math: FovMath): (arc: seq<Point3>)
    requires |p.azimuthRanges| == |p.elevationRanges|
    ensures |arc| == |p.azimuthRanges|
  {
    var ce, se := math.cos(elevation), math.sin(elevation);
    seq(|p.azimuthRanges|, i requires 0 <= i < |p.azimuthRanges| =>
      var azimuth := math.arctan2(-1.0 * p.azimuthRanges[i], p.elevationRanges[i]);
      var ca, sa := math.cos(azimuth), math.sin(azimuth);
      Point3(p.range * ce * ca, -1.0 * p.range * ce * sa, p.range * se))
  }

  /** The origin, then the arc at each elevation in turn. */
  function Vertices(p: Params, math: FovMath): (v: seq<Point3>)
    requires ValidParams(p)
    ensures |v| == 2 * |p.azimuthRanges| + 1
    ensures v[0] == Point3(0.0, 0.0, 0.0)
    ensures forall i :: 0 <= i < |p.azimuthRanges| ==>
      v[1 + i] == Arc(p, p.elevations[0], math)[i]
      && v[1 + |p.azimuthRanges| + i] == Arc(p, p.elevations[1], math)[i]
  {
    [Point3(0.0, 0.0, 0.0)] + Arc(p, p.elevations[0], math) + Arc(p, p.elevations[1], math)
  }

  // ==== build_vector_list: faces ====

  datatype Face = Face(a: nat, b: nat, c: nat)
  {
    function Corner(j: nat): nat
      requires j < 3
    {
      if j == 0 then a else if j == 1 then b else c
    }

    predicate Below(bound: nat) { a < bound && b < bound && c < bound }

    predicate Distinct() { a != b && b != c && a != c }
  }

  /**
   * The face list for `numVertices` vertices, built as the numpy arrays are:
   * face_cnt = (numVertices + 1) // 2 - 2 top and bottom faces, a left and a
   * right face, and two faces per gap between neighbouring beams.
   */
  function FovFaces(numVertices: nat): Result<seq<Face>, FovError> {
    var faceCnt := (numVertices + 1) / 2 - 2;
    var split := (numVertices - 1) / 2;
    if faceCnt < 0 then Failure(NegativeDimension)
    else
      var top := seq(faceCnt, k requires 0 <= k < faceCnt => Face(0, k + 1, k + 2));
      var btm := seq(faceCnt, k requires 0 <= k < faceCnt => Face(k + 2 + faceCnt + 1, k + 2 + faceCnt, 0));
      var left := [Face(0, split + 1, 1)];
      var right := [Face(0, split, numVertices - 1)];
      var gaps := if split >= 1 then split - 1 else 0;
      var first := seq(gaps, k requires 0 <= k < gaps => Face(k + 1, k + 2 + split - 1, k + 2 + split));
      var second := seq(gaps, k requires 0 <= k < gaps => Face(k + 1, k + 2 + split, k + 2));
      Success(top + btm + left + right + first + second)
  }

  /** With n beams (2n + 1 vertices) the face list exists iff n >= 1 and has 4n - 2 faces. */
  lemma FaceCount(n: nat)
    ensures FovFaces(2 * n + 1).Success? <==> n >= 1
    ensures n >= 1 ==> |FovFaces(2 * n + 1).value| == 4 * n - 2
  {
    assert (2 * n + 2) / 2 == n + 1;
    assert 2 * n / 2 == n;
  }

  /** The faces of the wedge of n >= 1 beams. */
  function Faces(n: nat): (f: seq<Face>)
    requires n >= 1
    ensures |f| == 4 * n - 2
  {
    FaceCount(n);
    FovFaces(2 * n + 1).value
  }

  /**
   * The faces, face by face, for n >= 1 beams, with i = 1..n-1: top faces
   * (0, i, i+1), bottom faces (i+n+1, i+n, 0), the left face (0, n+1, 1),
   * the right face (0, n, 2n), then (i, i+n, i+n+1) and (i, i+n+1, i+1)
   * between the two elevations. Below, face k of each block has i = k + 1
   * counted from the start of its block.
   */
  lemma FaceLayout(n: nat)
    requires n >= 1
    ensures var f := Faces(n);
      && (forall k :: 0 <= k < n - 1 ==> f[k] == Face(0, k + 1, k + 2))
      && (forall k :: n - 1 <= k < 2 * n - 2 ==> f[k] == Face(k + 3, k + 2, 0))
      && f[2 * n - 2] == Face(0, n + 1, 1)
      && f[2 * n - 1] == Face(0, n, 2 * n)
      && (forall k :: 2 * n <= k < 3 * n - 1 ==> f[k] == Face(k - 2 * n + 1, k - n + 1, k - n + 2))
      && (forall k :: 3 * n - 1 <= k < 4 * n - 2 ==> f[k] == Face(k - 3 * n + 2, k - 2 * n + 3, k - 3 * n + 3))
  {
    assert (2 * n + 2) / 2 == n + 1;
    assert 2 * n / 2 == n;
  }

  /** Every face index names a vertex, and no face repeats a vertex. */
  lemma {:induction false} FacesAreTriangles(n: nat)
    requires n >= 1
    ensures forall k :: 0 <= k < |Faces(n)| ==> Faces(n)[k].Below(2 * n + 1) && Faces(n)[k].Distinct()
  {
    var f := Faces(n);
    FaceLayout(n);
    forall k | 0 <= k < |f|
      ensures f[k].Below(2 * n + 1) && f[k].Distinct()
    {
      if k < n - 1 {
        assert f[k] == Face(0, k + 1, k + 2);
      } else if k < 2 * n - 2 {
        assert f[k] == Face(k + 3, k + 2, 0);
      } else if k < 2 * n {
      } else if k < 3 * n - 1 {
        assert f[k] == Face(k - 2 * n + 1, k - n + 1, k - n + 2);
      } else {
        assert f[k] == Face(k - 3 * n + 2, k - 2 * n + 3, k - 3 * n + 3);
      }
    }
  }

  /** No wedge for a sonar without beams: numpy refuses the negative face count. */
  lemma NoBeamsNoFaces()
    ensures FovFaces(1) == Failure(NegativeDimension)
  {
  }

  // ==== build_vector_list: the triangle list ====

  /** The three corners of one face, in order. */
  function FaceCorners(f: Face, vertices: seq<Point3>): (pts: seq<Point3>)
    requires f.Below(|vertices|)
    ensures |pts| == 3 && forall j :: 0 <= j < 3 ==> pts[j] == vertices[f.Corner(j)]
  {
    [vertices[f.a], vertices[f.b], vertices[f.c]]
  }

  /** The three corners of every face, in face order. */
  function FacePoints(faces: seq<Face>, vertices: seq<Point3>): seq<Point3>
    requires forall k :: 0 <= k < |faces| ==> faces[k].Below(|vertices|)
  {
    if faces == [] then []
    else
      assert faces[0].Below(|vertices|);
      FaceCorners(faces[0], vertices) + FacePoints(faces[1..], vertices)
  }

  lemma {:induction false} FacePointsAppend(faces: seq<Face>, f: Face, vertices: seq<Point3>)
    requires forall k :: 0 <= k < |faces| ==> faces[k].Below(|vertices|)
    requires f.Below(|vertices|)
    ensures FacePoints(faces + [f], vertices) == FacePoints(faces, vertices) + FaceCorners(f, vertices)
  {
    if faces == [] {
      assert faces + [f] == [f];
    } else {
      assert (faces + [f])[1..] == faces[1..] + [f];
      FacePointsAppend(faces[1..], f, vertices);
    }
  }

  /** Three points per face. */
  lemma {:induction false} FacePointsLength(faces: seq<Face>, vertices: seq<Point3>)
    requires forall k :: 0 <= k < |faces| ==> faces[k].Below(|vertices|)
    ensures |FacePoints(faces, vertices)| == 3 * |faces|
  {
    if faces != [] {
      FacePointsLength(faces[1..], vertices);
    }
  }

  /** Point 3k + j of the list is corner j of face k, for one k and j. */
  lemma {:induction false} FacePointsAt(faces: seq<Face>, vertices: seq<Point3>, k: nat, j: nat)
    requires forall k :: 0 <= k < |faces| ==> faces[k].Below(|vertices|)
    requires k < |faces| && j < 3
    ensures 3 * k + j < |FacePoints(faces, vertices)|
    ensures FacePoints(faces, vertices)[3 * k + j] == vertices[faces[k].Corner(j)]
  {
    var rest := FacePoints(faces[1..], vertices);
    assert FacePoints(faces, vertices) == FaceCorners(faces[0], vertices) + rest;
    if k > 0 {
      FacePointsAt(faces[1..], vertices, k - 1, j);
      assert faces[1..][k - 1] == faces[k];
    }
  }

  /** Point 3k + j of the list is corner j of face k. */
  lemma FacePointsLayout(faces: seq<Face>, vertices: seq<Point3>)
    requires forall k :: 0 <= k < |faces| ==> faces[k].Below(|vertices|)
    ensures |FacePoints(faces, vertices)| == 3 * |faces|
    ensures forall k, j :: 0 <= k < |faces| && 0 <= j < 3 ==>
      FacePoints(faces, vertices)[3 * k + j] == vertices[faces[k].Corner(j)]
  {
    FacePointsLength(faces, vertices);
    forall k, j | 0 <= k < |faces| && 0 <= j < 3
      ensures FacePoints(faces, vertices)[3 * k + j] == vertices[faces[k].Corner(j)]
    {
      FacePointsAt(faces, vertices, k, j);
    }
  }

  /** build_vector_list(params) as a value. */
  function BuildVectors(p: Params, math: FovMath): (vectors: seq<Point3>)
    requires ValidParams(p)
    ensures |vectors| == 3 * (4 * |p.azimuthRanges| - 2)
  {
    var n := |p.azimuthRanges|;
    FacesAreTriangles(n);
    FacePointsLength(Faces(n), Vertices(p, math));
    FacePoints(Faces(n), Vertices(p, math))
  }

  /** build_vector_list(): the vertices, the faces, then three points per face. */
  method BuildVectorList(p: Params, math: FovMath) returns (vectors: seq<Point3>)
    requires ValidParams(p)
    ensures vectors == BuildVectors(p, math)
  {
    var vertices := Vertices(p, math);
    var n := |p.azimuthRanges|;
    FacesAreTriangles(n);
    vectors := AppendFacePoints(Faces(n), vertices);
  }

  /** The loop of build_vector_list: for every face, append its three corners. */
  method AppendFacePoints(faces: seq<Face>, vertices: seq<Point3>) returns (vectors: seq<Point3>)
    requires forall k :: 0 <= k < |faces| ==> faces[k].Below(|vertices|)
    ensures vectors == FacePoints(faces, vertices)
  {
    vectors := [];
    var k := 0;
    while k < |faces|
      invariant 0 <= k <= |faces|
      invariant vectors == FacePoints(faces[..k], vertices)
    {
      var f := faces[k];
      var corners := FaceCorners(f, vertices);
      var j := 0;
      var pts := [];
      while j < 3
        invariant 0 <= j <= 3
        invariant pts == corners[..j]
      {
        pts := pts + [vertices[f.Corner(j)]];
        j := j + 1;
      }
      assert pts == corners;
      FacePointsAppend(faces[..k], f, vertices);
      assert faces[..k + 1] == faces[..k] + [f];
      vectors := vectors + pts;
      k := k + 1;
    }
    assert faces[..k] == faces;
  }

  // ==== Change detection ====

  const Atol: real := 0.01
  const Rtol: real := 0.00001

  /** numpy.isclose with atol 1e-2: |a - b| <= atol + rtol * |b|. */
  predicate Close(a: real, b: real) {
    Abs(a - b) <= Atol + Rtol * Abs(b)
  }

  function Abs(x: real): real { if x < 0.0 then -x else x }

  /** numpy.allclose over one-dimensional arrays, broadcasting a single element, refusing other shape mismatches. */
  function AllClose(a: seq<real>, b: seq<real>): (r: Result<bool, FovError>)
    ensures r.Failure? <==> |a| != |b| && |a| != 1 && |b| != 1
  {
    if |a| == |b| then Success(forall i :: 0 <= i < |a| ==> Close(a[i], b[i]))
    else if |a| == 1 then Success(forall i :: 0 <= i < |b| ==> Close(a[0], b[i]))
    else if |b| == 1 then Success(forall i :: 0 <= i < |a| ==> Close(a[i], b[0]))
    else Failure(BroadcastMismatch)
  }

  /** Arrays of lengths m and n broadcast against each other. */
  predicate Broadcastable(m: nat, n: nat) {
    m == n || m == 1 || n == 1
  }

  /**
   * The comparison of the callback as written: allclose on every key in
   * order; the first key whose shapes do not broadcast raises.
   */
  function ParamsCloseAsWritten(stored: Params, latest: Params): (r: Result<bool, FovError>)
    ensures r.Failure? <==>
      || !Broadcastable(|stored.elevations|, |latest.elevations|)
      || !Broadcastable(|stored.azimuthSteps|, |latest.azimuthSteps|)
      || !Broadcastable(|stored.azimuthRanges|, |latest.azimuthRanges|)
      || !Broadcastable(|stored.elevationRanges|, |latest.elevationRanges|)
    ensures r == Success(true) ==> Close(stored.range, latest.range)
  {
    var elevations := AllClose(stored.elevations, latest.elevations);
    var azimuthSteps := AllClose(stored.azimuthSteps, latest.azimuthSteps);
    var azimuthRanges := AllClose(stored.azimuthRanges, latest.azimuthRanges);
    var elevationRanges := AllClose(stored.elevationRanges, latest.elevationRanges);
    if elevations.Failure? || azimuthSteps.Failure? || azimuthRanges.Failure? || elevationRanges.Failure? then
      Failure(BroadcastMismatch)
    else
      Success(Close(stored.range, latest.range) && elevations.value && azimuthSteps.value
              && azimuthRanges.value && elevationRanges.value)
  }

  /** The intended comparison: arrays of different lengths are simply different. */
  predicate ParamsClose(stored: Params, latest: Params) {
    && Close(stored.range, latest.range)
    && SameShapeClose(stored.elevations, latest.elevations)
    && SameShapeClose(stored.azimuthSteps, latest.azimuthSteps)
    && SameShapeClose(stored.azimuthRanges, latest.azimuthRanges)
    && SameShapeClose(stored.elevationRanges, latest.elevationRanges)
  }

  predicate SameShapeClose(a: seq<real>, b: seq<real>) {
    |a| == |b| && forall i :: 0 <= i < |a| ==> Close(a[i], b[i])
  }

  /** Every parameter set is close to itself, so a repeated message is never a change. */
  lemma ParamsCloseReflexive(p: Params)
    ensures ParamsClose(p, p)
    ensures ParamsCloseAsWritten(p, p) == Success(true)
  {
    assert forall r: real :: Close(r, r) by {
      forall r: real ensures Close(r, r) {
        assert Abs(r - r) == 0.0 && Rtol * Abs(r) >= 0.0;
      }
    }
  }

  /** allclose of an array with itself is true. */
  lemma AllCloseReflexive(a: seq<real>)
    ensures AllClose(a, a) == Success(true)
  {
    forall i | 0 <= i < |a| ensures Close(a[i], a[i]) {
      assert Abs(a[i] - a[i]) == 0.0 && Rtol * Abs(a[i]) >= 0.0;
    }
  }

  /** Where the as-written comparison gives an answer on equal shapes, the intended one agrees. */
  lemma ComparisonsAgreeOnEqualShapes(stored: Params, latest: Params)
    requires |stored.elevations| == |latest.elevations| && |stored.azimuthSteps| == |latest.azimuthSteps|
    requires |stored.azimuthRanges| == |latest.azimuthRanges| && |stored.elevationRanges| == |latest.elevationRanges|
    ensures ParamsCloseAsWritten(stored, latest) == Success(ParamsClose(stored, latest))
  {
    assert AllClose(stored.elevations, latest.elevations) == Success(SameShapeClose(stored.elevations, latest.elevations));
    assert AllClose(stored.azimuthSteps, latest.azimuthSteps) == Success(SameShapeClose(stored.azimuthSteps, latest.azimuthSteps));
    assert AllClose(stored.azimuthRanges, latest.azimuthRanges) == Success(SameShapeClose(stored.azimuthRanges, latest.azimuthRanges));
    assert AllClose(stored.elevationRanges, latest.elevationRanges)
      == Success(SameShapeClose(stored.elevationRanges, latest.elevationRanges));
  }

  // ==== The callback as a state machine ====

  /** sonar_params, generate_fov_flag and vector_list of a SonarFOV. */
  datatype FovState = FovState(params: Option<Params>, flag: bool, vectors: Option<seq<Point3>>)

  /**
   * The callback as written: the first message stores its parameters; later
   * ones are compared with the STORED ones, which are never replaced, and a
   * change rebuilds the wedge from the stored parameters.
   */
  function CallbackStepAsWritten(s: FovState, msg: SonarImage, math: FovMath): (r: Result<FovState, FovError>)
    requires s.params.Some? ==> ValidParams(s.params.value)
    ensures s.params.None? ==> (r.Success? <==> SonarParams(msg, math).Success?)
    ensures r.Success? ==> r.value.params.Some? && ValidParams(r.value.params.value)
    ensures r.Success? && s.params.Some? ==> r.value.params == s.params
  {
    match SonarParams(msg, math)
    case Failure(e) => Failure(e)
    case Success(latest) =>
      if s.params.None? then
        Success(FovState(Some(latest), true, Some(BuildVectors(latest, math))))
      else
        match ParamsCloseAsWritten(s.params.value, latest)
        case Failure(e) => Failure(e)
        case Success(same) =>
          if same then Success(s.(flag := false))
          else Success(s.(flag := true, vectors := Some(BuildVectors(s.params.value, math))))
  }

  /**
   * The callback as intended: a changed message replaces the stored
   * parameters and the wedge is rebuilt from the message's own parameters;
   * a change of beam count is a change, not an error.
   */
  function CallbackStep(s: FovState, msg: SonarImage, math: FovMath): (r: Result<FovState, FovError>)
    requires s.params.Some? ==> ValidParams(s.params.value)
    ensures r.Success? <==> SonarParams(msg, math).Success?
    ensures r.Success? ==> r.value.params.Some? && ValidParams(r.value.params.value)
  {
    match SonarParams(msg, math)
    case Failure(e) => Failure(e)
    case Success(latest) =>
      if s.params.Some? && ParamsClose(s.params.value, latest) then Success(s.(flag := false))
      else Success(FovState(Some(latest), true, Some(BuildVectors(latest, math))))
  }

  /** The wedge on display is the one built from the stored parameters. */
  predicate Consistent(s: FovState, math: FovMath) {
    s.params.Some? ==> ValidParams(s.params.value) && s.vectors == Some(BuildVectors(s.params.value, math))
  }

  /**
   * After every successful message the stored parameters are within tolerance
   * of that message's and the wedge is built from them.
   */
  lemma {:induction false} CallbackTracksMessage(s: FovState, msg: SonarImage, math: FovMath)
    requires Consistent(s, math) && SonarParams(msg, math).Success?
    ensures CallbackStep(s, msg, math).Success?
    ensures var s' := CallbackStep(s, msg, math).value;
      Consistent(s', math) && ParamsClose(s'.params.value, SonarParams(msg, math).value)
  {
    var latest := SonarParams(msg, math).value;
    if !(s.params.Some? && ParamsClose(s.params.value, latest)) {
      ParamsCloseReflexive(latest);
    }
  }

  /** The first message always regenerates, and from its own parameters. */
  lemma FirstMessageRegenerates(msg: SonarImage, math: FovMath)
    requires SonarParams(msg, math).Success?
    ensures var r := CallbackStep(FovState(None, false, None), msg, math);
      && r.Success? && r.value.flag
      && r.value.params == Some(SonarParams(msg, math).value)
      && r.value.vectors == Some(BuildVectors(SonarParams(msg, math).value, math))
  {
  }

  /** A later message regenerates iff some parameter is out of tolerance, and otherwise leaves everything but the flag. */
  lemma RegeneratesIffChanged(s: FovState, msg: SonarImage, math: FovMath)
    requires s.params.Some? && ValidParams(s.params.value) && SonarParams(msg, math).Success?
    ensures var r := CallbackStep(s, msg, math).value;
      && (r.flag <==> !ParamsClose(s.params.value, SonarParams(msg, math).value))
      && (!r.flag ==> r == s.(flag := false))
  {
  }

  /** Once a message has been handled, repeating it regenerates nothing. */
  lemma {:induction false} RepeatDoesNotRegenerate(s: FovState, msg: SonarImage, math: FovMath)
    requires Consistent(s, math) && SonarParams(msg, math).Success?
    ensures var s1 := CallbackStep(s, msg, math).value;
      var s2 := CallbackStep(s1, msg, math);
      s2.Success? && !s2.value.flag && s2.value.vectors == s1.vectors
  {
    var latest := SonarParams(msg, math).value;
    var s1 := CallbackStep(s, msg, math).value;
    if !(s.params.Some? && ParamsClose(s.params.value, latest)) {
      ParamsCloseReflexive(latest);
    }
  }

  /**
   * As written, a later message regenerates iff the comparison with the
   * stored parameters finds a change, the stored parameters stay those of
   * the first message, and every regeneration rebuilds their wedge.
   */
  lemma AsWrittenKeepsFirstParams(s: FovState, msg: SonarImage, math: FovMath)
    requires s.params.Some? && ValidParams(s.params.value)
    requires CallbackStepAsWritten(s, msg, math).Success?
    ensures var r := CallbackStepAsWritten(s, msg, math).value;
      && r.params == s.params
      && (r.flag <==> ParamsCloseAsWritten(s.params.value, SonarParams(msg, math).value) == Success(false))
      && (r.flag ==> r.vectors == Some(BuildVectors(s.params.value, math)))
      && (!r.flag ==> r.vectors == s.vectors)
  {
  }

  // ==== Counterexamples for the callback as written ====

  /** Cosines and sines fixed at 1, so that the arc's x coordinate is the range. */
  const UnitMath := FovMath(_ => 1.0, _ => 1.0, _ => 0.0, (_, _) => 0.0)

  const NearMessage := SonarImage([BeamDirection(0.0, 0.0, 1.0)], [10.0])
  const FarMessage := SonarImage([BeamDirection(0.0, 0.0, 1.0)], [20.0])

  /**
   * A sonar whose range moves from 10 to 20: the callback as written warns,
   * regenerates, and rebuilds the wedge of range 10 again; the intended
   * callback shows the wedge of range 20.
   */
  lemma StaleParamsCounterexample()
    ensures var s0 := FovState(None, false, None);
      var s1 := CallbackStepAsWritten(s0, NearMessage, UnitMath).value;
      var s2 := CallbackStepAsWritten(s1, FarMessage, UnitMath);
      && s2.Success? && s2.value.flag
      && s2.value.vectors == Some(BuildVectors(SonarParams(NearMessage, UnitMath).value, UnitMath))
      && s2.value.vectors != Some(BuildVectors(SonarParams(FarMessage, UnitMath).value, UnitMath))
      && CallbackStep(CallbackStep(s0, NearMessage, UnitMath).value, FarMessage, UnitMath).value.vectors
         == Some(BuildVectors(SonarParams(FarMessage, UnitMath).value, UnitMath))
  {
    var near, far := SonarParams(NearMessage, UnitMath).value, SonarParams(FarMessage, UnitMath).value;
    NearFarChanged();
    NearFarWedgesDiffer();
    var s0 := FovState(None, false, None);
    var s1 := FovState(Some(near), true, Some(BuildVectors(near, UnitMath)));
    assert CallbackStepAsWritten(s0, NearMessage, UnitMath) == Success(s1);
    assert CallbackStep(s0, NearMessage, UnitMath) == Success(s1);
  }

  /** The two messages' parameters differ, in range only. */
  lemma NearFarChanged()
    ensures SonarParams(NearMessage, UnitMath).Success? && SonarParams(FarMessage, UnitMath).Success?
    ensures var near, far := SonarParams(NearMessage, UnitMath).value, SonarParams(FarMessage, UnitMath).value;
      ValidParams(near) && ParamsCloseAsWritten(near, far) == Success(false) && !ParamsClose(near, far)
  {
    var near, far := SonarParams(NearMessage, UnitMath).value, SonarParams(FarMessage, UnitMath).value;
    assert near.range == 10.0 && far.range == 20.0;
    assert !Close(near.range, far.range);
  }

  /** The wedges of range 10 and range 20 differ at their first arc vertex. */
  lemma NearFarWedgesDiffer()
    ensures SonarParams(NearMessage, UnitMath).Success? && SonarParams(FarMessage, UnitMath).Success?
    ensures BuildVectors(SonarParams(NearMessage, UnitMath).value, UnitMath)
      != BuildVectors(SonarParams(FarMessage, UnitMath).value, UnitMath)
  {
    var near, far := SonarParams(NearMessage, UnitMath).value, SonarParams(FarMessage, UnitMath).value;
    assert near.range == 10.0 && far.range == 20.0;
    FacesAreTriangles(1);
    FacePointsAt(Faces(1), Vertices(near, UnitMath), 0, 1);
    FacePointsAt(Faces(1), Vertices(far, UnitMath), 0, 1);
    FaceLayout(1);
    assert BuildVectors(near, UnitMath)[1] == Vertices(near, UnitMath)[2];
    assert BuildVectors(far, UnitMath)[1] == Vertices(far, UnitMath)[2];
    assert Vertices(near, UnitMath)[2].x == 10.0;
    assert Vertices(far, UnitMath)[2].x == 20.0;
  }

  /**
   * A sonar whose beam count changes (two beams, then three, say): the
   * callback as written raises on the broadcast; the intended callback
   * regenerates.
   */
  lemma BeamCountChangeRaises(s: FovState, msg: SonarImage, math: FovMath)
    requires s.params.Some? && ValidParams(s.params.value) && SonarParams(msg, math).Success?
    requires var stored := |s.params.value.azimuthRanges|;
      stored != |msg.beamDirections| && stored != 1 && |msg.beamDirections| != 1
    ensures CallbackStepAsWritten(s, msg, math) == Failure(BroadcastMismatch)
    ensures CallbackStep(s, msg, math).Success? && CallbackStep(s, msg, math).value.flag
  {
    var stored, latest := s.params.value, SonarParams(msg, math).value;
    assert AllClose(stored.azimuthRanges, latest.azimuthRanges).Failure?;
  }

  /**
   * Range 10, then range 20 twice: as written the second range-20 message
   * raises the flag and rebuilds again, since the stored range is still 10;
   * the intended callback lowers it.
   */
  lemma AsWrittenRepeatRegenerates()
    ensures var s0 := FovState(None, false, None);
      var s1 := CallbackStepAsWritten(s0, NearMessage, UnitMath).value;
      var s2 := CallbackStepAsWritten(s1, FarMessage, UnitMath).value;
      var s3 := CallbackStepAsWritten(s2, FarMessage, UnitMath);
      s3.Success? && s3.value.flag
    ensures var s0 := FovState(None, false, None);
      var s1 := CallbackStep(s0, NearMessage, UnitMath).value;
      var s2 := CallbackStep(s1, FarMessage, UnitMath).value;
      !CallbackStep(s2, FarMessage, UnitMath).value.flag
  {
    var near := SonarParams(NearMessage, UnitMath).value;
    NearFarChanged();
    var s0 := FovState(None, false, None);
    var s1 := FovState(Some(near), true, Some(BuildVectors(near, UnitMath)));
    assert CallbackStepAsWritten(s0, NearMessage, UnitMath) == Success(s1);
    assert CallbackStepAsWritten(s1, FarMessage, UnitMath) == Success(s1);
    assert CallbackStep(s0, NearMessage, UnitMath) == Success(s1);
    RepeatDoesNotRegenerate(s1, FarMessage, UnitMath);
  }

  /** Three beams along the direction of NearMessage's single beam, at the same range. */
  const ThreeBeamMessage := SonarImage([BeamDirection(0.0, 0.0, 1.0), BeamDirection(0.0, 0.0, 1.0),
                                        BeamDirection(0.0, 0.0, 1.0)], [10.0])

  /**
   * One beam, then three beams along the same direction: allclose broadcasts
   * the one-element arrays, so the callback as written sees no change and
   * keeps the one-beam wedge; the intended callback rebuilds a three-beam one.
   */
  lemma OneToThreeBeamsUnseen()
    ensures var s0 := FovState(None, false, None);
      var s1 := CallbackStepAsWritten(s0, NearMessage, UnitMath).value;
      var s2 := CallbackStepAsWritten(s1, ThreeBeamMessage, UnitMath);
      && s2.Success? && !s2.value.flag && s2.value.vectors == s1.vectors
      && |s1.vectors.value| == 6
    ensures var s1 := CallbackStep(FovState(None, false, None), NearMessage, UnitMath).value;
      var s2 := CallbackStep(s1, ThreeBeamMessage, UnitMath).value;
      s2.flag && |s2.vectors.value| == 30
  {
    OneThreeCompared();
    var one := SonarParams(NearMessage, UnitMath).value;
    var s0 := FovState(None, false, None);
    var s1 := FovState(Some(one), true, Some(BuildVectors(one, UnitMath)));
    assert CallbackStepAsWritten(s0, NearMessage, UnitMath) == Success(s1);
    assert CallbackStep(s0, NearMessage, UnitMath) == Success(s1);
  }

  /** The one-beam and three-beam parameters: allclose calls them close, the intended comparison does not. */
  lemma OneThreeCompared()
    ensures SonarParams(NearMessage, UnitMath).Success? && SonarParams(ThreeBeamMessage, UnitMath).Success?
    ensures var one, three := SonarParams(NearMessage, UnitMath).value, SonarParams(ThreeBeamMessage, UnitMath).value;
      && |one.azimuthRanges| == 1 && |three.azimuthRanges| == 3
      && ParamsCloseAsWritten(one, three) == Success(true) && !ParamsClose(one, three)
  {
    var b := BeamDirection(0.0, 0.0, 1.0);
    RepeatedBeamParams(NearMessage, UnitMath, b, 1);
    RepeatedBeamParams(ThreeBeamMessage, UnitMath, b, 3);
    var one, three := SonarParams(NearMessage, UnitMath).value, SonarParams(ThreeBeamMessage, UnitMath).value;
    assert one.range == three.range;
    assert one.azimuthRanges == [b.y] && one.elevationRanges == [b.z];
    AllCloseReflexive(one.elevations);
    AllCloseReflexive(one.azimuthSteps);
    AllCloseReflexive([one.range]);
    BroadcastsOver(b.y, three.azimuthRanges);
    BroadcastsOver(b.z, three.elevationRanges);
  }

  /** allclose broadcasts a one-element array over an array of equal values. */
  lemma BroadcastsOver(x: real, b: seq<real>)
    requires forall i :: 0 <= i < |b| ==> b[i] == x
    ensures AllClose([x], b) == Success(true)
  {
    assert Close(x, x) by {
      assert Abs(x - x) == 0.0 && Rtol * Abs(x) >= 0.0;
    }
  }

  /**
   * n copies of one beam: sonar_params() gives n copies of its y and z
   * components, and azimuth steps and elevations that start and stop at its
   * own direction.
   */
  lemma RepeatedBeamParams(msg: SonarImage, math: FovMath, b: BeamDirection, n: nat)
    requires |msg.beamDirections| == n >= 1 && |msg.ranges| > 0
    requires forall i :: 0 <= i < n ==> msg.beamDirections[i] == b
    ensures SonarParams(msg, math).Success?
    ensures var p := SonarParams(msg, math).value;
      && p.range == Max(msg.ranges)
      && p.elevations == Linspace(math.arccos(b.z), math.arccos(b.z), 2)
      && p.azimuthSteps == Linspace(b.y, b.y, NumAzimuthSteps)
      && |p.azimuthRanges| == n && (forall i :: 0 <= i < n ==> p.azimuthRanges[i] == b.y)
      && |p.elevationRanges| == n && (forall i :: 0 <= i < n ==> p.elevationRanges[i] == b.z)
  {
    BeamArrays(msg, math);
    var p := SonarParams(msg, math).value;
    assert Min(p.azimuthRanges) == b.y && Max(p.azimuthRanges) == b.y;
    assert Min(p.elevationRanges) == b.z && Max(p.elevationRanges) == b.z;
  }

  /** sonar_params() copies the beams' y and z components, in order, and takes the largest range. */
  lemma BeamArrays(msg: SonarImage, math: FovMath)
    requires SonarParams(msg, math).Success?
    ensures var p := SonarParams(msg, math).value;
      && p.range == Max(msg.ranges)
      && (forall i :: 0 <= i < |msg.beamDirections| ==> p.azimuthRanges[i] == msg.beamDirections[i].y)
      && (forall i :: 0 <= i < |msg.beamDirections| ==> p.elevationRanges[i] == msg.beamDirections[i].z)
  {
  }

  // ==== The node ====

  /** The state a SonarFOV keeps between messages. */
  class SonarFovNode {
    const math: FovMath
    var sonarParams: Option<Params>
    var generateFovFlag: bool
    var vectorList: Option<seq<Point3>>

    function State(): FovState
      reads this
    {
      FovState(sonarParams, generateFovFlag, vectorList)
    }

    predicate Valid()
      reads this
    {
      Consistent(State(), math)
    }

    constructor(math: FovMath)
      ensures this.math == math && State() == FovState(None, false, None) && Valid()
    {
      this.math := math;
      sonarParams := None;
      generateFovFlag := false;
      vectorList := None;
    }

    /**
     * callback() as written: on a malformed message or a raising comparison
     * nothing changes; the first message stores its parameters, later ones
     * only raise or lower the flag, and a raised flag rebuilds the wedge from
     * the stored parameters.
     */
    method Callback(msg: SonarImage) returns (r: Result<(), FovError>)
      requires Valid()
      modifies this
      ensures Valid()
      ensures match CallbackStepAsWritten(old(State()), msg, math)
        case Success(s) => r == Success(()) && State() == s
        case Failure(e) => r == Failure(e) && State() == old(State())
    {
      ghost var expected := CallbackStepAsWritten(State(), msg, math);
      if sonarParams.None? {
        var first := SonarParams(msg, math);
        if first.Failure? {
          return Failure(first.error);
        }
        sonarParams := Some(first.value);
        generateFovFlag := true;
      } else {
        var newParams := SonarParams(msg, math);
        if newParams.Failure? {
          return Failure(newParams.error);
        }
        var messageEquality := ParamsCloseAsWritten(sonarParams.value, newParams.value);
        if messageEquality.Failure? {
          assert expected == Failure(messageEquality.error);
          return Failure(messageEquality.error);
        }
        generateFovFlag := !messageEquality.value;
      }
      assert expected.Success? && expected.value.params == sonarParams && expected.value.flag == generateFovFlag;
      if generateFovFlag {
        var vectors := BuildVectorList(sonarParams.value, math);
        vectorList := Some(vectors);
      }
      r := Success(());
    }
  }
}
