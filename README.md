# sonar_image_proc: a Dafny model of the sonar drawing and post-processing core

This project models the core of `sonar_image_proc`, a library and set of ROS
nodes that turn multibeam imaging-sonar pings into pictures, fields of view
and point clouds. The parts modelled are:

- **The fan drawer** (`sonar_drawer.dfy`, module `SonarImageProc`).
  `SonarDrawer` renders a ping as a rectangular bearing-by-range image
  (`drawRectSonarImage`). It then resamples that image into a fan through two
  remap tables (`remapRectSonarImage`, `drawSonar`). The tables live in a
  one-slot cache, `CachedMap`, which rebuilds them (`create`) only when the
  ping's geometry changes (`isValid`, `operator()`).
- **The message adapter** (`sonar_image_msg_interface.dfy`, module
  `SonarImageMsgInterface`). It reads 1-, 2- or 4-byte little-endian samples
  out of an `acoustic_msgs/SonarImage` byte array: `data_type`, `index` and
  the `intensity_uint8/16/32` accessors, which delegate to one another.
- **Alpha blending** (`overlay_image.dfy`, module `OverlayImage`).
  `overlayImage` blends a four-channel foreground onto a copy of the
  background.
- **The field-of-view node** (`sonar_fov.dfy`, module `SonarFov`). It builds
  the sonar's wedge as a triangle list (`build_vector_list`). It rebuilds the
  wedge only when the message parameters change (`SonarFOV.callback`).
- **The point-cloud node** (`sonar_pointcloud.dfy`, module `SonarPointcloud`).
  It builds a 256-entry RGBA table and a per-elevation geometry on the first
  message. For every message it emits one coloured point per sample and
  elevation, and paints samples at or below a threshold with colour 0.

`abstract_sonar_interface.dfy` holds the ping as the drawer sees it.
`index_arithmetic.dfy` holds the row-major index lemmas shared by the byte
and point layouts. `rounding.dfy` holds the ceiling shared by the drawer and
the point cloud. `wrappers.dfy` holds `Option` and `Result`.

Each state-changing entity is a class whose methods are proved against a
step function on values:
- `CachedMap.Lookup` / `LookupStep`;
- `SonarFovNode.Callback` / `CallbackStepAsWritten` (the callback as the
  code stands; `CallbackStep` is its corrected counterpart, see Findings);
- `SonarTranslator.Callback` / `CallbackStep`.

The lemmas state the properties about those step functions. The loops of the
source are methods with invariants, proved equal to a function of their
inputs: `FillPolarMap`, `DrawRectSonarImage`, `Overlay`, `AppendFacePoints`,
`MakeIntensityLookup` and `MakeGeometry`.

Foreign code enters as function-valued parameters:
- libm trigonometry and square roots, and float products and quotients
  (`FloatMath`, `FovMath`, `PcMath`);
- OpenCV's `convertMaps` cell conversion and `remap`, and the drawer's
  `drawOverlay` (`Externals`);
- colormaps (`SonarColorMap`, `Colormap`).

Where the header comments and the code disagree, the model follows the code:
- The rect image is `nBearings` rows by `nRanges` columns. `cv::Size` is
  width-first, although `SonarDrawer.h` says `numRanges` rows.
- A `CV_32FC1` buffer keeps its type as well, not only `8UC3` and `32FC3`.
- `create` on a canvas without columns or rows returns and leaves the old
  tables and fingerprint in place. `operator()` then hands out the stale
  tables.
- The cache compares `nAzimuth()` with the stored `nBearings()`. The model
  has one bearing count for both.

## Model

| member | source | states |
|---|---|---|
| SonarImageMsgInterface.DataTypeOf | ros/include/sonar_image_proc/sonar_image_msg_interface.h:29-39 | the type is TYPE_NONE exactly when data_size is not 1, 2 or 4; otherwise its width is data_size bytes |
| SonarImageMsgInterface.Index | ros/include/sonar_image_proc/sonar_image_msg_interface.h:119-123 | fails exactly in a debug build with an unsupported data_size; otherwise the byte offset data_size * (range * nBearings + azimuth) |
| SonarImageMsgInterface.IntensityUint8 | ros/include/sonar_image_proc/sonar_image_msg_interface.h:53-65 | aborts exactly when index() asserts; for supported sizes the sample's most significant byte (the sample itself for 1-byte data); 0 for unsupported sizes |
| SonarImageMsgInterface.IntensityUint16 | ros/include/sonar_image_proc/sonar_image_msg_interface.h:67-79 | same failure condition; the full sample for 1- and 2-byte data, the top 16 bits of 4-byte data, 0 otherwise |
| SonarImageMsgInterface.IntensityUint32 | ros/include/sonar_image_proc/sonar_image_msg_interface.h:81-97 | same failure condition; the full little-endian sample for every supported size, 0 otherwise |
| SonarImageMsgInterface.Decode16 | ros/include/sonar_image_proc/sonar_image_msg_interface.h:73-74 | the OR of the low byte and the shifted high byte is the little-endian value of the two bytes |
| SonarImageMsgInterface.Decode32 | ros/include/sonar_image_proc/sonar_image_msg_interface.h:89-93 | the OR of four shifted bytes is the little-endian value of the four bytes |
| SonarImageMsgInterface.OffsetInBounds | ros/include/sonar_image_proc/sonar_image_msg_interface.h:119-123 | the sample of every in-range cell ends inside a byte array of data_size * nRanges * nBearings bytes |
| SonarImageMsgInterface.OffsetsDisjoint | ros/include/sonar_image_proc/sonar_image_msg_interface.h:119-123 | the byte spans of two different cells never overlap |
| SonarImageMsgInterface.RoundTrip16 | ros/include/sonar_image_proc/sonar_image_msg_interface.h:67-97 | a 2-byte value stored little-endian reads back unchanged through intensity_uint16 and intensity_uint32 |
| SonarImageMsgInterface.RoundTrip32 | ros/include/sonar_image_proc/sonar_image_msg_interface.h:81-97 | a 4-byte value stored little-endian reads back unchanged through intensity_uint32 |
| SonarImageMsgInterface.Narrow2KeepsHighByte | ros/include/sonar_image_proc/sonar_image_msg_interface.h:53-65 | intensity_uint8 of 2-byte data is the sample's second (high) byte |
| SonarImageMsgInterface.Narrow4KeepsHighByte | ros/include/sonar_image_proc/sonar_image_msg_interface.h:53-65 | intensity_uint8 of 4-byte data is the sample's fourth (high) byte |
| SonarImageMsgInterface.Narrow4KeepsHighHalf | ros/include/sonar_image_proc/sonar_image_msg_interface.h:67-79 | intensity_uint16 of 4-byte data is the sample's upper two bytes |
| SonarImageMsgInterface.WideningPreservesValue | ros/include/sonar_image_proc/sonar_image_msg_interface.h:53-97 | in every build, 1-byte data reads the same value through all three widths, 2-byte data through the 16- and 32-bit accessors |
| SonarImageMsgInterface.NarrowingIsShift | ros/include/sonar_image_proc/sonar_image_msg_interface.h:53-79 | in every build, each narrower accessor returns the wider one shifted right by the dropped bits |
| SonarImageProc.DefaultImage | include/sonar_image_proc/SonarDrawer.h:47-49 | the default buffer is an empty CV_8UC3 matrix |
| SonarImageProc.RectType | lib/SonarDrawer.cpp:25-30 | the rect image keeps a CV_8UC3, CV_32FC3 or CV_32FC1 buffer type; any other type becomes CV_8UC3 |
| SonarImageProc.RectImage | lib/SonarDrawer.cpp:23-48 | the rect image has RectType's element type and nBearings rows of nRanges cells, cell (b, r) holding the colormap lookup of bearing b and range r |
| SonarImageProc.RectImageShape | lib/SonarDrawer.cpp:23-30 | the rect image has nBearings rows of nRanges cells; it is empty when either count is zero |
| SonarImageProc.RectImageCorners | include/sonar_image_proc/SonarDrawer.h:39-45 | cell (0, 0) maps the smallest range at the first bearing; the last column holds the largest range and the last row the last bearing |
| SonarImageProc.DefaultRectIs8UC3 | include/sonar_image_proc/SonarDrawer.h:47-49 | with the default buffer the rect image is 8-bit three-channel |
| SonarImageProc.TablesOfPing | lib/SonarDrawer.cpp:191-228 | for a non-degenerate ping the float map is canvas-shaped and both converted tables are non-empty |
| SonarImageProc.CanvasSize | lib/SonarDrawer.cpp:181-191 | the map is nRanges rows by ceil(nRanges sin(azMax)) - floor(nRanges sin(azMin)) columns |
| SonarImageProc.TablesDependOnGeometryOnly | lib/SonarDrawer.cpp:175-236 | two pings with equal range and bearing counts and bounds get identical maps, whatever their intensities |
| SonarImageProc.FillPolarMap | lib/SonarDrawer.cpp:191-226 | the filled CV_32FC2 map is, cell by cell, the range and the scaled bearing of the fan pixel |
| SonarImageProc.FillColumn | lib/SonarDrawer.cpp:197-225 | one pass of the inner loop fills column x with each pixel's range and scaled bearing and leaves every other column unchanged |
| SonarImageProc.CreateStep | lib/SonarDrawer.cpp:175-236 | a degenerate canvas leaves the state as it was; otherwise the new state is keyed on the ping's geometry |
| SonarImageProc.LookupStep | lib/SonarDrawer.cpp:163-170 | hands out the stored pair; a valid cache is left unchanged; after a lookup for a non-degenerate ping the cache is valid for it |
| SonarImageProc.EmptyCacheRebuilds | lib/SonarDrawer.cpp:163-170 | a cache with an empty map calls create on its first lookup |
| SonarImageProc.AnyGeometryChangeInvalidates | lib/SonarDrawer.cpp:238-249 | a cache with both maps present is valid for a ping iff all four stored geometry fields equal the ping's |
| SonarImageProc.RebuildMakesValid | lib/SonarDrawer.cpp:228-236 | create for a non-degenerate ping stores its fingerprint and leaves the cache valid for it |
| SonarImageProc.SecondLookupIsCached | lib/SonarDrawer.cpp:163-170 | a second lookup with the same geometry changes nothing and returns the same tables |
| SonarImageProc.DegenerateLookupReturnsStoredMaps | lib/SonarDrawer.cpp:186-189 | a stale lookup for a canvas without columns or rows keeps the old state and returns the old tables |
| SonarImageProc.StaleCacheRebuildsForNewGeometry | lib/SonarDrawer.cpp:163-170 | a cache valid for p, asked about a non-degenerate q of other geometry, is stale for q and ends valid for q and not for p |
| SonarImageProc.CachedMap.constructor | include/sonar_image_proc/SonarDrawer.h:66-67 | both maps start empty |
| SonarImageProc.CachedMap.IsValid | lib/SonarDrawer.cpp:238-249 | true iff both maps are present and the stored fingerprint is the ping's |
| SonarImageProc.CachedMap.Create | lib/SonarDrawer.cpp:175-236 | the new state is CreateStep of the old; a rebuild counter grows by one exactly when the canvas is not degenerate |
| SonarImageProc.CachedMap.Lookup | lib/SonarDrawer.cpp:163-170 | state and result are LookupStep of the old state; the tables are rebuilt only when the cache was not valid |
| SonarImageProc.SonarDrawer.constructor | lib/SonarDrawer.cpp:16 | the drawer owns a new cache with empty maps |
| SonarImageProc.SonarDrawer.DrawRectSonarImage | lib/SonarDrawer.cpp:18-50 | the result is the rect image of the ping in the type RectType picks; every cell is the colormap of its sample |
| SonarImageProc.SonarDrawer.RemapRectSonarImage | lib/SonarDrawer.cpp:52-60 | the result is the rect image remapped through the tables the cache lookup hands out; the cache advances by one lookup |
| SonarImageProc.SonarDrawer.DrawSonar | lib/SonarDrawer.cpp:149-159 | the rect image remapped through the cached tables, passed through drawOverlay iff addOverlay |
| OverlayImage.PosInRange | lib/OverlayImage.cpp:48-54 | the byte address y * step + x * channels + c of every in-range pixel channel lies inside the buffer |
| OverlayImage.PosInjective | lib/OverlayImage.cpp:48-54 | distinct pixel channels have distinct byte addresses |
| OverlayImage.Blend | lib/OverlayImage.cpp:54-55 | a blended channel truncated to a byte lies between the background and the foreground value |
| OverlayImage.Overlay | lib/OverlayImage.cpp:14-59 | the output has the background's shape; every channel inside the foreground with positive alpha is the blend, every other one the background |
| OverlayImage.OpaqueTakesForeground | lib/OverlayImage.cpp:38-55 | alpha 255 copies the foreground channel |
| OverlayImage.TransparentKeepsBackground | lib/OverlayImage.cpp:38-47 | alpha 0 leaves the background channel |
| OverlayImage.OutsideForegroundKeepsBackground | lib/OverlayImage.cpp:20-34 | rows and columns beyond the foreground keep the background |
| OverlayImage.ChannelBetween | lib/OverlayImage.cpp:47-56 | every output channel lies between the background and the foreground channel |
| SonarFov.Max | scripts/sonar_fov.py:30 | Python's max(): an element that no element exceeds |
| SonarFov.Min | scripts/sonar_fov.py:30 | Python's min(): an element that no element is below |
| SonarFov.Linspace | scripts/sonar_fov.py:30-36 | num evenly spaced values starting exactly at start and ending exactly at stop |
| SonarFov.BeamArrays | scripts/sonar_fov.py:17-44 | the stored azimuth and elevation arrays are the beams' y and z components in order, and the range is the largest range |
| SonarFov.SonarParams | scripts/sonar_fov.py:17-44 | succeeds iff the message has beams and ranges, since min() and max() refuse empty sequences; then two elevations and one azimuth and one elevation per beam |
| SonarFov.Arc | scripts/sonar_fov.py:56-69 | one arc point per beam at the given elevation |
| SonarFov.Vertices | scripts/sonar_fov.py:71-81 | 2n + 1 vertices: the origin first, then the arcs at the first and the second elevation |
| SonarFov.FaceCount | scripts/sonar_fov.py:83-94 | with n beams the face arrays exist iff n >= 1, and then there are 4n - 2 faces |
| SonarFov.Faces | scripts/sonar_fov.py:83-111 | the face list of n >= 1 beams has 4n - 2 faces |
| SonarFov.FaceLayout | scripts/sonar_fov.py:88-111 | face by face: top, bottom, left, right, then two faces per gap between neighbouring beams, with their vertex indices |
| SonarFov.FacesAreTriangles | scripts/sonar_fov.py:88-111 | every face index names a vertex and no face repeats a vertex |
| SonarFov.NoBeamsNoFaces | scripts/sonar_fov.py:83-89 | a wedge without beams gives a negative face count, which numpy refuses |
| SonarFov.FaceCorners | scripts/sonar_fov.py:115-119 | corner j of a face is the vertex its index j names |
| SonarFov.FacePointsAppend | scripts/sonar_fov.py:113-121 | one more face appends exactly its three corners |
| SonarFov.FacePointsLayout | scripts/sonar_fov.py:113-121 | point 3k + j of the list is corner j of face k |
| SonarFov.FacePointsLength | scripts/sonar_fov.py:113-121 | the list holds exactly three points per face |
| SonarFov.FacePointsAt | scripts/sonar_fov.py:113-121 | for any face k and corner j, point 3k + j of the list is that corner's vertex |
| SonarFov.BuildVectors | scripts/sonar_fov.py:47-121 | the triangle list has 3 (4n - 2) points |
| SonarFov.BuildVectorList | scripts/sonar_fov.py:47-121 | the list the loops build is the triangle list of the parameters |
| SonarFov.AppendFacePoints | scripts/sonar_fov.py:113-121 | the nested loop appends three corners per face, in face order |
| SonarFov.AllClose | scripts/sonar_fov.py:185-188 | numpy.allclose raises exactly when neither length is 1 and the lengths differ |
| SonarFov.ParamsCloseReflexive | scripts/sonar_fov.py:185-190 | every parameter set is close to itself, so a repeated message is no change |
| SonarFov.ParamsCloseAsWritten | scripts/sonar_fov.py:185-190 | the comparison raises exactly when some key's lengths neither match nor include a 1; a positive answer implies the ranges are close |
| SonarFov.ComparisonsAgreeOnEqualShapes | scripts/sonar_fov.py:185-188 | when the beam counts are equal the as-written comparison answers, and answers as the intended one |
| SonarFov.CallbackStepAsWritten | scripts/sonar_fov.py:178-201 | the first message is stored iff it has beams and ranges; any success leaves valid parameters, and after the first message the stored parameters never change |
| SonarFov.CallbackStep | scripts/sonar_fov.py:178-201 | corrected callback: succeeds iff the message has beams and ranges, and then stores valid parameters |
| SonarFov.CallbackTracksMessage | scripts/sonar_fov.py:178-201 | corrected callback: after every message the stored parameters are close to the message's and the wedge is built from them |
| SonarFov.FirstMessageRegenerates | scripts/sonar_fov.py:178-180 | corrected callback (identical to the code on a first message): the first message raises the flag and builds the wedge from its own parameters |
| SonarFov.RegeneratesIffChanged | scripts/sonar_fov.py:181-201 | corrected callback: a later message raises the flag iff some parameter is out of tolerance; otherwise only the flag changes |
| SonarFov.RepeatDoesNotRegenerate | scripts/sonar_fov.py:181-197 | corrected callback: the same message twice regenerates nothing the second time |
| SonarFov.AsWrittenKeepsFirstParams | scripts/sonar_fov.py:178-201 | as written, later messages never replace the stored parameters and every regeneration rebuilds their wedge |
| SonarFov.StaleParamsCounterexample | scripts/sonar_fov.py:181-201 | range 10 then 20: as written the flag rises but the wedge keeps range 10; the corrected callback shows range 20 |
| SonarFov.AsWrittenRepeatRegenerates | scripts/sonar_fov.py:181-201 | range 10, then range 20 twice: as written the second range-20 message raises the flag again; the corrected callback lowers it |
| SonarFov.OneToThreeBeamsUnseen | scripts/sonar_fov.py:185-195 | one beam, then three beams along the same direction: as written allclose broadcasts, the flag stays down and the one-beam wedge (6 points) stays; the corrected callback rebuilds a three-beam wedge (30 points) |
| SonarFov.BeamCountChangeRaises | scripts/sonar_fov.py:185-188 | a beam-count change (neither count 1) raises as written and regenerates in the corrected callback |
| SonarFov.SonarFovNode.constructor | scripts/sonar_fov.py:141-143 | no parameters, no wedge, flag down |
| SonarFov.SonarFovNode.Callback | scripts/sonar_fov.py:170-201 | the node's state and result are CallbackStepAsWritten of its old state: parameters stored on the first message only, the wedge rebuilt from them whenever the comparison finds a change, nothing changed on an error |
| Rounding.Ceil | lib/SonarDrawer.cpp:182 | the least integer not below its argument |
| SonarPointcloud.Arange | scripts/sonar_pointcloud.py:33 | value i is start + i * step |
| SonarPointcloud.ElevationsOf | scripts/sonar_pointcloud.py:26-33 | the assertion fails iff max_elev_deg < min_elev_deg; the elevations exist iff it holds and the step in radians is not zero |
| SonarPointcloud.UnpackU32 | scripts/sonar_pointcloud.py:53 | struct.unpack('I') of four bytes fits in 32 bits |
| SonarPointcloud.PackRoundTrip | scripts/sonar_pointcloud.py:53 | the packed uint32 stores back to exactly the four bytes it was read from, in either byte order |
| SonarPointcloud.LookupTable | scripts/sonar_pointcloud.py:45-54 | the table has 256 entries |
| SonarPointcloud.LookupBytes | scripts/sonar_pointcloud.py:47-54 | entry aa lies in memory as blue, green, red, aa; on little-endian hosts aa is its top byte |
| SonarPointcloud.SlotLayout | scripts/sonar_pointcloud.py:70 | idx = ii + jj * nangles is below nranges * nangles and distinct for distinct (ii, jj) |
| SonarPointcloud.SlotOfIndex | scripts/sonar_pointcloud.py:70 | every slot of a row is the idx of exactly one beam and range: idx % nangles and idx / nangles |
| SonarPointcloud.GeometryOf | scripts/sonar_pointcloud.py:56-76 | one row per elevation, each of nranges * nangles points |
| SonarPointcloud.GeometryLayout | scripts/sonar_pointcloud.py:62-74 | slot ii + jj * nangles of row kk is the point of elevation kk, beam ii and range jj |
| SonarPointcloud.SlotIsSampleOffset | scripts/sonar_pointcloud.py:70 | for single-byte samples a slot equals the adapter's sample offset of that beam and range |
| SonarPointcloud.Colour | scripts/sonar_pointcloud.py:118 | fails, with an IndexError, exactly when the sample is 256 or more above the threshold |
| SonarPointcloud.RowPointsLayout | scripts/sonar_pointcloud.py:117-120 | a row succeeds iff every zipped sample has a colour; then point i is row point i with sample i's colour, min(row, samples) points in all |
| SonarPointcloud.ByteThresholdNeverFails | scripts/sonar_pointcloud.py:118 | with a threshold >= 0 every sample has a colour: 0 at or below the threshold, else table entry aa - threshold |
| SonarPointcloud.NegativeThresholdFails | scripts/sonar_pointcloud.py:118 | a sample 256 or more above the threshold indexes past the table |
| SonarPointcloud.ColourAlpha | scripts/sonar_pointcloud.py:118 | a coloured point's alpha byte is aa - threshold |
| SonarPointcloud.CloudOf | scripts/sonar_pointcloud.py:117-120 | the cloud exists iff every elevation's row can be coloured |
| SonarPointcloud.CloudLayout | scripts/sonar_pointcloud.py:114-120 | elevation-major output: when every sample has a colour, the cloud has m = min(row length, samples) points per elevation, and point k * m + i is sample i placed at elevation k |
| SonarPointcloud.CloudFailsFrom | scripts/sonar_pointcloud.py:117-120 | the first row whose colouring fails fails the whole cloud with its error |
| SonarPointcloud.CallbackStep | scripts/sonar_pointcloud.py:89-120 | the colour table of the state stays 256 entries long |
| SonarPointcloud.MultiByteRaisesFirst | scripts/sonar_pointcloud.py:89-90 | data_size != 1 raises before anything is built: the state is unchanged |
| SonarPointcloud.FirstMessageBuildsTables | scripts/sonar_pointcloud.py:107-110 | the first single-byte message builds the geometry from its own ranges and beams, and the colour table |
| SonarPointcloud.TablesBuiltOnce | scripts/sonar_pointcloud.py:107-110 | built tables are never rebuilt; later messages are coloured against the first message's geometry |
| SonarPointcloud.FirstCloudLayout | scripts/sonar_pointcloud.py:107-120 | for a first message with one sample per beam and range, the sample of (ii, jj) appears once per elevation at its geometric position |
| SonarPointcloud.SonarTranslator.constructor | scripts/sonar_pointcloud.py:26-42 | elevations from the parameters; no geometry and no table yet |
| SonarPointcloud.SonarTranslator.MakeIntensityLookup | scripts/sonar_pointcloud.py:45-54 | the filled list is the 256-entry colour table; the geometry is untouched |
| SonarPointcloud.SonarTranslator.MakeGeometry | scripts/sonar_pointcloud.py:56-76 | the triple loop's list is the geometry of the message; the colour table is untouched |
| SonarPointcloud.SonarTranslator.Callback | scripts/sonar_pointcloud.py:78-120 | state and result are CallbackStep of the old state |

## Left out

- `SonarDrawer::drawOverlay` (lib/SonarDrawer.cpp:62-147) is not part of
  this model. It is a drawing routine passed in as an uninterpreted function,
  and `DrawSonar` only decides whether to call it.
- OpenCV internals are uninterpreted functions: the cell conversion of
  `cv::convertMaps`, the interpolation of `cv::remap`, and `cv::Mat` memory
  management. Header sharing between matrices is not modelled; images are
  values.
- Floating-point arithmetic is not modelled. `sin`, `cos`, `sqrt`, `atan2`,
  `arccos`, the radian conversion, and the drawer's float products and
  quotients are uninterpreted functions. Values are exact reals, and NaN and
  infinities do not exist.
- FillPolarMap: range and bearing of each cell come from the uninterpreted
  float functions, so the map is proved equal to its definition, not
  checked against trigonometric meaning.
- The colormaps (`ColorMaps.h`, matplotlib's inferno) are not part of this
  model. The drawer takes a `SonarColorMap` of three lookups. The point
  cloud takes the inferno entries already scaled to bytes by `int(255 * c)`.
- `AbstractSonarInterface.h` is not part of this model. A ping is a value
  with one bearing count, standing for both `nBearings()` and `nAzimuth()`.
- `intensity_float`
  (ros/include/sonar_image_proc/sonar_image_msg_interface.h:99-112) is float
  division. `log_sonar_image_msg_interface.h` and the post-processor nodelet
  are outside the core.
- Machine integer widths are not modelled in the drawer. The `int` and
  `size_t` conversions of `nRanges`, `floor` and `ceil` are unbounded
  integers. The `index()` product cannot wrap.
- Overlay: requires a foreground of at least four channels and no more
  background channels than foreground channels. With fewer, the source reads
  the neighbouring pixel's bytes or past the buffer, which this model does
  not represent.
- Overlay: matrices are continuous (step = cols * channels). Views into a
  larger matrix, where step is wider, are not modelled.
- Overlay: every matrix is 8-bit. lib/OverlayImage.cpp:38-55 addresses
  `.data` bytes by `channels()` whatever the depth, so for 16-bit or float
  matrices it blends individual bytes of multi-byte values; that case is not
  modelled.
- Blend: the double arithmetic `bg * (1 - a/255) + fg * a/255` is exact
  real arithmetic truncated to a byte. IEEE rounding may land one below an
  exact integer result, and that difference is not modelled.
- ROS plumbing is left out:
  - subscribers, publishers and parameter lookups (a `Config` value stands
    in for the parameters);
  - headers and `frame_id`, logging and timing;
  - `SonarFOV.generate_marker_array` and its colour and alpha;
  - `PointField` layout and `create_cloud`'s float32 conversion.
- `SonarFOV.__init__` sets `generate_fov`, but the callback reads and
  writes `generate_fov_flag`. The first message always assigns the flag
  before reading it, so the model has one flag, initially down.
- The point cloud's `return_idxs` (scripts/sonar_pointcloud.py:115-116) is
  computed only for a log line and is left out.
- SonarTranslator.constructor: requires a configuration that passes the
  assertion and has a non-zero step. `ElevationsOf` models both failures
  (an `AssertionError` and numpy's division by zero) as errors.
- IntensityUint8, IntensityUint16, IntensityUint32: require the sample's
  bytes to lie inside `intensities` (`Readable`). The source indexes the
  byte vector with an unchecked `operator[]`
  (ros/include/sonar_image_proc/sonar_image_msg_interface.h:57, 72-74, 88-93),
  so a short array is undefined behaviour, which the model does not represent.
- SonarPointcloud.Colour: `intensity_threshold` is an integer; a float
  parameter is not modelled. Python's negative list indexing is
  unreachable because `aa - threshold` is positive on that branch.
- SonarPointcloud.UnpackU32: the host byte order of `struct` is a
  parameter, and `struct.pack` raising on colour values outside 0..255 is
  not modelled (the colour bytes are bytes by type).

## Findings

| source | as written | input that shows it | evidently intended | confidence | as-written member | corrected member |
|---|---|---|---|---|---|---|
| scripts/sonar_fov.py:178-201 | a message whose parameters differ raises the flag, but `self.sonar_params` is never replaced; the wedge is rebuilt from the first message's parameters, and every later message is compared with them again | one beam, range 10, then range 20 (cos and sin fixed at 1): the flag rises and the rebuilt wedge still has range 10 | store `new_params` when they differ and build the wedge from them | not executed | SonarFov.CallbackStepAsWritten, SonarFov.SonarFovNode.Callback, SonarFov.StaleParamsCounterexample, SonarFov.AsWrittenRepeatRegenerates | SonarFov.CallbackStep, SonarFov.CallbackTracksMessage, SonarFov.RepeatDoesNotRegenerate |
| scripts/sonar_fov.py:185-188 | `np.allclose` on arrays of different lengths, neither of length 1, raises instead of answering | a stored two-beam message, then a three-beam message | a change of beam count counts as a parameter change and regenerates the wedge | not executed | SonarFov.ParamsCloseAsWritten, SonarFov.BeamCountChangeRaises | SonarFov.ParamsClose, SonarFov.CallbackStep, SonarFov.RegeneratesIffChanged |
| scripts/sonar_fov.py:185-195 | `np.allclose` broadcasts an array of length 1 against a longer one, so a change of beam count from one beam is not seen when the new beams point the same way | one beam (0, 0, 1) at range 10, then three such beams at range 10: the flag stays down and the one-beam wedge stays on display | a change of beam count counts as a parameter change and regenerates the wedge | not executed | SonarFov.ParamsCloseAsWritten, SonarFov.OneToThreeBeamsUnseen | SonarFov.ParamsClose, SonarFov.RegeneratesIffChanged |
