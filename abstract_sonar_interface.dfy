/**
 * What the renderer knows of a ping (AbstractSonarInterface): its polar
 * geometry and a per-cell intensity accessor.
 */
module AbstractSonarInterface {

  /** Addresses one sample of a ping: a bearing (azimuth) index and a range index. */
  datatype AzimuthRangeIndices = AzimuthRangeIndices(azimuth: nat, range: nat)

  /** A (first, second) pair of floats, as std::pair<float, float>; compared exactly. */
  datatype Bounds = Bounds(first: real, second: real)

  /**
   * A ping.  The renderer reads `nRanges`, `nBearings`, the range and
   * azimuth bounds, and (through a colormap) the intensity of each cell.
   */
  datatype Ping = Ping(
    nRanges: nat,
    nBearings: nat,
    rangeBounds: Bounds,
    azimuthBounds: Bounds,
    intensity: AzimuthRangeIndices -> real)
  {
    /**
     * nAzimuth().  The renderer reads the bearing count under both names;
     * this model takes them to be the same quantity.
     */
    function NAzimuth(): nat {
      nBearings
    }
  }
}
