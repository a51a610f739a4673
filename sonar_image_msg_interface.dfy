/**
 * The intensity accessors of SonarImageMsgInterface: an adapter that reads
 * the samples of an acoustic_msgs/SonarImage message.  The message holds a
 * flat byte array `intensities` with one `dataSize`-byte little-endian sample
 * per (azimuth, range) cell, range-major.  The typed accessors narrow wider
 * samples by keeping their high bits and widen narrower ones losslessly,
 * partly by delegating to one another.
 */
module SonarImageMsgInterface {
  import opened Wrappers
  import opened AbstractSonarInterface
  import opened IndexArithmetic

  /** The sample types an AbstractSonarInterface can report. */
  datatype DataType = TypeUint8 | TypeUint16 | TypeUint32 | TypeNone

  /** Whether `assert` is compiled in (a debug build) or not (NDEBUG). */
  datatype Build = Debug | Release

  /** The only way an accessor can fail: the assertion in `index`. */
  datatype Fault = AssertionFailed

  /**
   * The parts of the message the accessors read.  `nRanges` and `nBearings`
   * are the lengths of its `ranges` and `azimuth_angles` arrays.
   */
  datatype SonarImageMsg = SonarImageMsg(
    dataSize: nat,
    nRanges: nat,
    nBearings: nat,
    intensities: seq<bv8>)

  predicate Supported(dataSize: nat) {
    dataSize == 1 || dataSize == 2 || dataSize == 4
  }

  /** Bytes per sample of a data type; 0 for TypeNone. */
  function Width(t: DataType): nat {
    match t
    case TypeUint8 => 1
    case TypeUint16 => 2
    case TypeUint32 => 4
    case TypeNone => 0
  }

  /** `data_type()`: the sample type announced by `data_size`. */
  function DataTypeOf(msg: SonarImageMsg): (t: DataType)
    ensures t != TypeNone <==> Supported(msg.dataSize)
    ensures t != TypeNone ==> Width(t) == msg.dataSize
  {
    if msg.dataSize == 1 then TypeUint8
    else if msg.dataSize == 2 then TypeUint16
    else if msg.dataSize == 4 then TypeUint32
    else TypeNone
  }

  /** Byte offset of a sample, before any assertion is considered. */
  function Offset(msg: SonarImageMsg, idx: AzimuthRangeIndices): nat {
    msg.dataSize * (idx.range * msg.nBearings + idx.azimuth)
  }

  /** `index()`: the offset, or the assertion failure of a debug build. */
  function Index(msg: SonarImageMsg, idx: AzimuthRangeIndices, build: Build): (r: Result<nat, Fault>)
    ensures r.Failure? <==> build == Debug && !Supported(msg.dataSize)
    ensures r.Success? ==> r.value == Offset(msg, idx)
  {
    if build == Debug && !Supported(msg.dataSize) then Failure(AssertionFailed)
    else Success(Offset(msg, idx))
  }

  /** An accessor aborts exactly when `index` does. */
  predicate Aborts(msg: SonarImageMsg, build: Build) {
    build == Debug && !Supported(msg.dataSize)
  }

  /** The bytes of the addressed sample lie inside `intensities`. */
  predicate Readable(msg: SonarImageMsg, idx: AzimuthRangeIndices) {
    Supported(msg.dataSize) ==> Offset(msg, idx) + msg.dataSize <= |msg.intensities|
  }

  /** Reference meaning of a byte string: its little-endian unsigned value. */
  function LittleEndian(bytes: seq<bv8>): nat {
    if bytes == [] then 0 else bytes[0] as nat + 256 * LittleEndian(bytes[1..])
  }

  /** 2 to the power `8 * bytes`, for the byte counts a narrowing drops. */
  function ByteScale(bytes: nat): (scale: nat)
    ensures scale >= 1
  {
    if bytes == 0 then 1 else 256 * ByteScale(bytes - 1)
  }

  /** The addressed sample as a number, read in full width. */
  function SampleValue(msg: SonarImageMsg, idx: AzimuthRangeIndices): nat
    requires Supported(msg.dataSize) && Readable(msg, idx)
  {
    var i := Offset(msg, idx);
    LittleEndian(msg.intensities[i .. i + msg.dataSize])
  }

  /**
   * What a `width`-byte accessor should report: the full sample when it
   * fits, otherwise its top `width` bytes.
   */
  function Scaled(msg: SonarImageMsg, idx: AzimuthRangeIndices, width: nat): nat
    requires Supported(msg.dataSize) && Readable(msg, idx)
  {
    if msg.dataSize <= width then SampleValue(msg, idx)
    else DropBytes(SampleValue(msg, idx), ByteScale(msg.dataSize - width))
  }

  /** Division of a sample value by a positive power of 256. */
  function DropBytes(v: nat, scale: nat): nat
    requires scale >= 1
  {
    v / scale
  }

  /** Rank used to show that the accessors' delegation is not circular. */
  function Rank8(dataSize: nat): nat { if dataSize == 2 || dataSize == 4 then 1 else 0 }
  function Rank16(dataSize: nat): nat { if dataSize == 4 then 1 else 0 }
  function Rank32(dataSize: nat): nat { if dataSize == 1 || dataSize == 2 then 1 else 0 }

  /** `intensity_uint8()`. */
  function IntensityUint8(msg: SonarImageMsg, idx: AzimuthRangeIndices, build: Build): (r: Result<bv8, Fault>)
    requires Readable(msg, idx)
    ensures r.Failure? <==> Aborts(msg, build)
    ensures r.Success? && Supported(msg.dataSize) ==> r.value as nat == Scaled(msg, idx, 1)
    ensures r.Success? && !Supported(msg.dataSize) ==> r.value == 0
    decreases Rank8(msg.dataSize)
  {
    match Index(msg, idx, build)
    case Failure(e) => Failure(e)
    case Success(i) =>
      if msg.dataSize == 1 then
        LittleEndian1(msg.intensities[i .. i + 1]);
        Success(msg.intensities[i])
      else if msg.dataSize == 2 then
        var v := IntensityUint16(msg, idx, build).value;
        Narrow16To8(v);
        Success((v >> 8) as bv8)
      else if msg.dataSize == 4 then
        var v := IntensityUint32(msg, idx, build).value;
        Narrow32To8(v);
        Success((v >> 24) as bv8)
      else
        Success(0)
  }

  /** `intensity_uint16()`. */
  function IntensityUint16(msg: SonarImageMsg, idx: AzimuthRangeIndices, build: Build): (r: Result<bv16, Fault>)
    requires Readable(msg, idx)
    ensures r.Failure? <==> Aborts(msg, build)
    ensures r.Success? && Supported(msg.dataSize) ==> r.value as nat == Scaled(msg, idx, 2)
    ensures r.Success? && !Supported(msg.dataSize) ==> r.value == 0
    decreases Rank16(msg.dataSize)
  {
    match Index(msg, idx, build)
    case Failure(e) => Failure(e)
    case Success(i) =>
      if msg.dataSize == 1 then
        LittleEndian1(msg.intensities[i .. i + 1]);
        Success(msg.intensities[i] as bv16)
      else if msg.dataSize == 2 then
        Decode16(msg.intensities[i .. i + 2]);
        Success((msg.intensities[i] as bv16) | ((msg.intensities[i + 1] as bv16) << 8))
      else if msg.dataSize == 4 then
        var v := IntensityUint32(msg, idx, build).value;
        Narrow32To16(v);
        Success((v >> 16) as bv16)
      else
        Success(0)
  }

  /** `intensity_uint32()`. */
  function IntensityUint32(msg: SonarImageMsg, idx: AzimuthRangeIndices, build: Build): (r: Result<bv32, Fault>)
    requires Readable(msg, idx)
    ensures r.Failure? <==> Aborts(msg, build)
    ensures r.Success? && Supported(msg.dataSize) ==> r.value as nat == Scaled(msg, idx, 4)
    ensures r.Success? && !Supported(msg.dataSize) ==> r.value == 0
    decreases Rank32(msg.dataSize)
  {
    match Index(msg, idx, build)
    case Failure(e) => Failure(e)
    case Success(i) =>
      if msg.dataSize == 1 then
        var v := IntensityUint8(msg, idx, build).value;
        assert (v as bv32) as nat == v as nat;
        Success(v as bv32)
      else if msg.dataSize == 2 then
        var v := IntensityUint16(msg, idx, build).value;
        assert (v as bv32) as nat == v as nat;
        Success(v as bv32)
      else if msg.dataSize == 4 then
        Decode32(msg.intensities[i .. i + 4]);
        Success((msg.intensities[i] as bv32)
          | ((msg.intensities[i + 1] as bv32) << 8)
          | ((msg.intensities[i + 2] as bv32) << 16)
          | ((msg.intensities[i + 3] as bv32) << 24))
      else
        Success(0)
  }

  // ---- Bit-level facts behind the accessors.  Each is kept small: the
  // ---- solver relates bit-vectors to integers only in tiny steps.

  lemma LittleEndian1(b: seq<bv8>)
    requires |b| == 1
    ensures LittleEndian(b) == b[0] as nat
  {
    assert b[1..] == [];
  }

  lemma LittleEndian2(b: seq<bv8>)
    requires |b| == 2
    ensures LittleEndian(b) == b[0] as nat + 256 * b[1] as nat
  {
    LittleEndian1(b[1..]);
  }

  lemma LittleEndian4(b: seq<bv8>)
    requires |b| == 4
    ensures LittleEndian(b) == b[0] as nat + 256 * (b[1] as nat + 256 * (b[2] as nat + 256 * b[3] as nat))
  {
    LittleEndian2(b[2..]);
    assert b[1..][1..] == b[2..];
  }

  lemma Compose16(b0: bv8, b1: bv8)
    ensures ((b0 as bv16) | ((b1 as bv16) << 8)) as nat == b0 as nat + 256 * b1 as nat
  {
  }

  lemma Compose32(b0: bv8, b1: bv8, b2: bv8, b3: bv8)
    ensures ((b0 as bv32) | ((b1 as bv32) << 8) | ((b2 as bv32) << 16) | ((b3 as bv32) << 24)) as nat
            == b0 as nat + 256 * (b1 as nat + 256 * (b2 as nat + 256 * b3 as nat))
  {
  }

  lemma Decode16(b: seq<bv8>)
    requires |b| == 2
    ensures ((b[0] as bv16) | ((b[1] as bv16) << 8)) as nat == LittleEndian(b)
  {
    LittleEndian2(b);
    Compose16(b[0], b[1]);
  }

  lemma Decode32(b: seq<bv8>)
    requires |b| == 4
    ensures ((b[0] as bv32) | ((b[1] as bv32) << 8) | ((b[2] as bv32) << 16) | ((b[3] as bv32) << 24)) as nat
            == LittleEndian(b)
  {
    LittleEndian4(b);
    Compose32(b[0], b[1], b[2], b[3]);
  }

  /** The four bytes of a 32-bit word, least significant first. */
  function Bytes32(v: bv32): (b: seq<bv8>)
    ensures |b| == 4
  {
    [(v & 0xFF) as bv8, ((v >> 8) & 0xFF) as bv8, ((v >> 16) & 0xFF) as bv8, (v >> 24) as bv8]
  }

  lemma SplitWord(v: bv32)
    ensures var b := Bytes32(v);
      v == (b[0] as bv32) | ((b[1] as bv32) << 8) | ((b[2] as bv32) << 16) | ((b[3] as bv32) << 24)
  {
  }

  /** A word read back from its own bytes: the basis of every round trip. */
  lemma WordValue(v: bv32)
    ensures v as nat == LittleEndian(Bytes32(v))
  {
    var b := Bytes32(v);
    SplitWord(v);
    Decode32(b);
  }

  lemma Div256(n: nat, q: nat, r: nat)
    requires n == q * 256 + r && r < 256
    ensures n / 256 == q
  {
  }

  lemma Div65536(n: nat, q: nat, r: nat)
    requires n == q * 65536 + r && r < 65536
    ensures n / 65536 == q
  {
  }

  lemma Div16777216(n: nat, q: nat, r: nat)
    requires n == q * 16777216 + r && r < 16777216
    ensures n / 16777216 == q
  {
  }

  lemma ByteScales()
    ensures ByteScale(1) == 256 && ByteScale(2) == 65536 && ByteScale(3) == 16777216
  {
    assert ByteScale(1) == 256;
    assert ByteScale(2) == 65536;
  }

  /** The top byte of a four-digit base-256 number. */
  lemma TopDigit(n: nat, n0: nat, n1: nat, n2: nat, n3: nat)
    requires n0 < 256 && n1 < 256 && n2 < 256
    requires n == n0 + 256 * (n1 + 256 * (n2 + 256 * n3))
    ensures n / 16777216 == n3
  {
    Div16777216(n, n3, n0 + 256 * n1 + 65536 * n2);
  }

  /** The top two bytes of a four-digit base-256 number. */
  lemma TopTwoDigits(n: nat, n0: nat, n1: nat, n2: nat, n3: nat)
    requires n0 < 256 && n1 < 256
    requires n == n0 + 256 * (n1 + 256 * (n2 + 256 * n3))
    ensures n / 65536 == n2 + 256 * n3
  {
    Div65536(n, n2 + 256 * n3, n0 + 256 * n1);
  }

  lemma ByteBound(x: bv8)
    ensures x as nat < 256
  {
  }

  lemma Narrow16To8(v: bv16)
    ensures ((v >> 8) as bv8) as nat == v as nat / ByteScale(1)
  {
    var b := Bytes16(v);
    HalfValue(v);
    LittleEndian2(b);
    assert (v >> 8) as bv8 == b[1];
    ByteBound(b[0]);
    Div256(v as nat, b[1] as nat, b[0] as nat);
    ByteScales();
  }

  lemma Narrow32To8(v: bv32)
    ensures ((v >> 24) as bv8) as nat == v as nat / ByteScale(3)
  {
    var b := Bytes32(v);
    WordValue(v);
    LittleEndian4(b);
    assert (v >> 24) as bv8 == b[3];
    ByteBound(b[0]);
    ByteBound(b[1]);
    ByteBound(b[2]);
    TopDigit(v as nat, b[0] as nat, b[1] as nat, b[2] as nat, b[3] as nat);
    ByteScales();
  }

  lemma HighHalf(v: bv32)
    ensures var b := Bytes32(v); (v >> 16) as bv16 == (b[2] as bv16) | ((b[3] as bv16) << 8)
  {
  }

  lemma Narrow32To16(v: bv32)
    ensures ((v >> 16) as bv16) as nat == v as nat / ByteScale(2)
  {
    var b := Bytes32(v);
    WordValue(v);
    LittleEndian4(b);
    HighHalf(v);
    Compose16(b[2], b[3]);
    ByteBound(b[0]);
    ByteBound(b[1]);
    TopTwoDigits(v as nat, b[0] as nat, b[1] as nat, b[2] as nat, b[3] as nat);
    ByteScales();
  }

  // ---- Properties of the accessors ----

  /** A message whose byte array holds exactly one sample per cell. */
  predicate WellFormed(msg: SonarImageMsg) {
    |msg.intensities| == msg.dataSize * (msg.nRanges * msg.nBearings)
  }

  predicate InRange(msg: SonarImageMsg, idx: AzimuthRangeIndices) {
    idx.azimuth < msg.nBearings && idx.range < msg.nRanges
  }

  /** Row-major cell number behind the byte offset. */
  function Cell(msg: SonarImageMsg, idx: AzimuthRangeIndices): nat {
    idx.range * msg.nBearings + idx.azimuth
  }

  lemma {:induction false} CellBound(msg: SonarImageMsg, idx: AzimuthRangeIndices)
    requires InRange(msg, idx)
    ensures Cell(msg, idx) < msg.nRanges * msg.nBearings
  {
    calc {
      Cell(msg, idx) + 1;
    <= idx.range * msg.nBearings + msg.nBearings;
    == (idx.range + 1) * msg.nBearings;
    <= { MulMono(idx.range + 1, msg.nRanges, msg.nBearings); }
      msg.nRanges * msg.nBearings;
    }
  }

  /** Distinct cells of the grid have distinct cell numbers. */
  lemma {:induction false} CellInjective(msg: SonarImageMsg, x: AzimuthRangeIndices, y: AzimuthRangeIndices)
    requires InRange(msg, x) && InRange(msg, y) && x != y
    ensures Cell(msg, x) != Cell(msg, y)
  {
    if x.range == y.range {
      assert x.azimuth != y.azimuth;
    } else if x.range < y.range {
      MulMono(x.range + 1, y.range, msg.nBearings);
    } else {
      MulMono(y.range + 1, x.range, msg.nBearings);
    }
  }

  /** The sample of an in-range cell ends inside the byte array. */
  lemma {:induction false} OffsetInBounds(msg: SonarImageMsg, idx: AzimuthRangeIndices)
    requires InRange(msg, idx)
    ensures Offset(msg, idx) + msg.dataSize <= msg.dataSize * (msg.nRanges * msg.nBearings)
    ensures WellFormed(msg) ==> Readable(msg, idx)
  {
    CellBound(msg, idx);
    MulMono(Cell(msg, idx) + 1, msg.nRanges * msg.nBearings, msg.dataSize);
  }

  /** The byte spans of two different cells never overlap. */
  lemma {:induction false} OffsetsDisjoint(msg: SonarImageMsg, x: AzimuthRangeIndices, y: AzimuthRangeIndices)
    requires InRange(msg, x) && InRange(msg, y) && x != y
    ensures Offset(msg, x) + msg.dataSize <= Offset(msg, y) || Offset(msg, y) + msg.dataSize <= Offset(msg, x)
  {
    CellInjective(msg, x, y);
    if Cell(msg, x) < Cell(msg, y) {
      MulMono(Cell(msg, x) + 1, Cell(msg, y), msg.dataSize);
    } else {
      MulMono(Cell(msg, y) + 1, Cell(msg, x), msg.dataSize);
    }
  }

  /** The two bytes of a 16-bit word, least significant first. */
  function Bytes16(v: bv16): (b: seq<bv8>)
    ensures |b| == 2
  {
    [(v & 0xFF) as bv8, (v >> 8) as bv8]
  }

  lemma HalfValue(v: bv16)
    ensures v as nat == LittleEndian(Bytes16(v))
  {
    var b := Bytes16(v);
    assert v == (b[0] as bv16) | ((b[1] as bv16) << 8);
    Decode16(b);
  }

  lemma Widen16(v: bv16)
    ensures (v as bv32) as nat == v as nat
  {
  }

  lemma SameValue16(a: bv16, b: bv16)
    requires a as nat == b as nat
    ensures a == b
  {
    assert a as nat as bv16 == a;
  }

  lemma SameValue32(a: bv32, b: bv32)
    requires a as nat == b as nat
    ensures a == b
  {
    assert a as nat as bv32 == a;
  }

  /** A 2-byte sample written little-endian is read back unchanged, in both wide accessors. */
  lemma {:induction false} RoundTrip16(msg: SonarImageMsg, idx: AzimuthRangeIndices, build: Build, v: bv16)
    requires msg.dataSize == 2 && Readable(msg, idx)
    requires msg.intensities[Offset(msg, idx) .. Offset(msg, idx) + 2] == Bytes16(v)
    ensures IntensityUint16(msg, idx, build) == Success(v)
    ensures IntensityUint32(msg, idx, build) == Success(v as bv32)
  {
    Read16As16(msg, idx, build, v);
    Read16As32(msg, idx, build, v);
  }

  lemma Read16As16(msg: SonarImageMsg, idx: AzimuthRangeIndices, build: Build, v: bv16)
    requires msg.dataSize == 2 && Readable(msg, idx)
    requires msg.intensities[Offset(msg, idx) .. Offset(msg, idx) + 2] == Bytes16(v)
    ensures IntensityUint16(msg, idx, build) == Success(v)
  {
    HalfValue(v);
    assert SampleValue(msg, idx) == v as nat;
    var r := IntensityUint16(msg, idx, build).value;
    SameValue16(r, v);
  }

  lemma Read16As32(msg: SonarImageMsg, idx: AzimuthRangeIndices, build: Build, v: bv16)
    requires msg.dataSize == 2 && Readable(msg, idx)
    requires msg.intensities[Offset(msg, idx) .. Offset(msg, idx) + 2] == Bytes16(v)
    ensures IntensityUint32(msg, idx, build) == Success(v as bv32)
  {
    HalfValue(v);
    assert SampleValue(msg, idx) == v as nat;
    var w := IntensityUint32(msg, idx, build).value;
    Widen16(v);
    SameValue32(w, v as bv32);
  }

  /** A 4-byte sample written little-endian is read back unchanged. */
  lemma {:induction false} RoundTrip32(msg: SonarImageMsg, idx: AzimuthRangeIndices, build: Build, v: bv32)
    requires msg.dataSize == 4 && Readable(msg, idx)
    requires msg.intensities[Offset(msg, idx) .. Offset(msg, idx) + 4] == Bytes32(v)
    ensures IntensityUint32(msg, idx, build) == Success(v)
  {
    WordValue(v);
    var r := IntensityUint32(msg, idx, build).value;
    SameValue32(r, v);
  }

  /** Narrowing 2-byte data to 8 bits keeps the most significant byte. */
  lemma {:induction false} Narrow2KeepsHighByte(msg: SonarImageMsg, idx: AzimuthRangeIndices, build: Build)
    requires msg.dataSize == 2 && Readable(msg, idx)
    ensures IntensityUint8(msg, idx, build) == Success(msg.intensities[Offset(msg, idx) + 1])
  {
    var i := Offset(msg, idx);
    var b := msg.intensities[i .. i + 2];
    LittleEndian2(b);
    ByteScales();
    Div256(SampleValue(msg, idx), b[1] as nat, b[0] as nat);
  }

  /** Narrowing 4-byte data to 8 bits keeps its most significant byte. */
  lemma {:induction false} Narrow4KeepsHighByte(msg: SonarImageMsg, idx: AzimuthRangeIndices, build: Build)
    requires msg.dataSize == 4 && Readable(msg, idx)
    ensures IntensityUint8(msg, idx, build) == Success(msg.intensities[Offset(msg, idx) + 3])
  {
    var i := Offset(msg, idx);
    var b := msg.intensities[i .. i + 4];
    LittleEndian4(b);
    ByteScales();
    Div16777216(SampleValue(msg, idx), b[3] as nat, b[0] as nat + 256 * b[1] as nat + 65536 * b[2] as nat);
  }

  lemma HighHalfOfBytes(b: seq<bv8>)
    requires |b| == 4
    ensures LittleEndian(b) / 65536 == ((b[2] as bv16) | ((b[3] as bv16) << 8)) as nat
  {
    LittleEndian4(b);
    Div65536(LittleEndian(b), b[2] as nat + 256 * b[3] as nat, b[0] as nat + 256 * b[1] as nat);
    Compose16(b[2], b[3]);
  }

  /** Narrowing 4-byte data to 16 bits keeps its two most significant bytes. */
  lemma {:induction false} Narrow4KeepsHighHalf(msg: SonarImageMsg, idx: AzimuthRangeIndices, build: Build)
    requires msg.dataSize == 4 && Readable(msg, idx)
    ensures var i := Offset(msg, idx);
      IntensityUint16(msg, idx, build) == Success((msg.intensities[i + 2] as bv16) | ((msg.intensities[i + 3] as bv16) << 8))
  {
    var i := Offset(msg, idx);
    var b := msg.intensities[i .. i + 4];
    var high := (b[2] as bv16) | ((b[3] as bv16) << 8);
    HighHalfOfBytes(b);
    var h := IntensityUint16(msg, idx, build).value;
    assert h as nat == LittleEndian(b) / 65536 by { ByteScales(); }
    SameValue16(h, high);
  }

  /** Widening never changes the value: 1-byte data reads alike in every width, 2-byte data in 16 and 32 bits. */
  lemma WideningPreservesValue(msg: SonarImageMsg, idx: AzimuthRangeIndices, build: Build)
    requires Readable(msg, idx)
    ensures msg.dataSize == 1 ==>
      IntensityUint16(msg, idx, build).value as nat == IntensityUint8(msg, idx, build).value as nat &&
      IntensityUint32(msg, idx, build).value as nat == IntensityUint8(msg, idx, build).value as nat
    ensures msg.dataSize == 2 ==>
      IntensityUint32(msg, idx, build).value as nat == IntensityUint16(msg, idx, build).value as nat
  {
  }

  /** Narrowing as the source writes it: each narrower accessor is the wider one shifted right. */
  lemma NarrowingIsShift(msg: SonarImageMsg, idx: AzimuthRangeIndices, build: Build)
    requires Readable(msg, idx)
    ensures msg.dataSize == 2 ==>
      IntensityUint8(msg, idx, build).value as nat == IntensityUint16(msg, idx, build).value as nat / 256
    ensures msg.dataSize == 4 ==>
      IntensityUint8(msg, idx, build).value as nat == IntensityUint32(msg, idx, build).value as nat / 16777216 &&
      IntensityUint16(msg, idx, build).value as nat == IntensityUint32(msg, idx, build).value as nat / 65536
  {
    if msg.dataSize == 2 {
      NarrowShift2(msg, idx, build);
    } else if msg.dataSize == 4 {
      NarrowShift4(msg, idx, build);
    }
  }

  lemma NarrowShift2(msg: SonarImageMsg, idx: AzimuthRangeIndices, build: Build)
    requires Readable(msg, idx) && msg.dataSize == 2
    ensures IntensityUint8(msg, idx, build).value as nat == IntensityUint16(msg, idx, build).value as nat / 256
  {
    assert Supported(msg.dataSize) && !Aborts(msg, build);
    var v := SampleValue(msg, idx);
    assert Scaled(msg, idx, 2) == v;
    assert Scaled(msg, idx, 1) == DropBytes(v, ByteScale(1));
    ByteScales();
  }

  lemma NarrowShift4(msg: SonarImageMsg, idx: AzimuthRangeIndices, build: Build)
    requires Readable(msg, idx) && msg.dataSize == 4
    ensures IntensityUint8(msg, idx, build).value as nat == IntensityUint32(msg, idx, build).value as nat / 16777216
    ensures IntensityUint16(msg, idx, build).value as nat == IntensityUint32(msg, idx, build).value as nat / 65536
  {
    assert Supported(msg.dataSize) && !Aborts(msg, build);
    var v := SampleValue(msg, idx);
    assert Scaled(msg, idx, 4) == v;
    assert Scaled(msg, idx, 2) == DropBytes(v, ByteScale(2));
    assert Scaled(msg, idx, 1) == DropBytes(v, ByteScale(3));
    ByteScales();
  }
}
