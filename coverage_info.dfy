/** One source's coverage of one region, as the calculators hand it over and the
    batch driver then annotates it. */
module Coverage {
  import opened Common

  /** positionStart and positionEnd bound the region; coverages is the raw depth array;
      samplingSize, coverageLimit (0 = automatic axis), color and name are set by the driver;
      siteCount is meaningful for optical map coverage only. */
  datatype CoverageInfo = CoverageInfo(
    name: string,
    positionStart: int,
    positionEnd: int,
    coverages: seq<int>,
    samplingSize: int,
    coverageLimit: int,
    color: Option<int>,
    siteCount: int)
}
