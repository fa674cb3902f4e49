/** The plotting mode of the batch driver: for every region of the region file, the alignment
    (HTS) entries and the optical map (OM) entry of that region get their coverage limits, an
    output name and three output paths, and are handed to the chart that plots them, either
    in one image or in one image per data source. */
module Batch {
  import opened Common
  import opened Coverage
  import opened Regions
  import opened CoverageMaps
  import opened PlotTypes
  import opened CoveragePlotBase

  // ---------------------------------------------------------------- chart choice

  /** The CoveragePlot implementations: step chart, spline chart, histogram. */
  datatype ChartKind = StepChart | SplineChart | HistogramChart

  /** createCoveragePlot */
  function CreateCoveragePlot(plotType: PlotType): (chart: ChartKind)
    ensures chart == StepChart <==> plotType == LINE
    ensures chart == SplineChart <==> plotType == SPLINE
    ensures chart == HistogramChart <==> plotType == HISTOGRAM
  {
    match plotType
    case LINE => StepChart
    case SPLINE => SplineChart
    case _ => HistogramChart
  }

  /** The chart kind follows the plot-type option as PlotType.of reads it: a missing option
      gives the histogram, and each constant's name in lower case gives its own chart. */
  lemma ChartOfOption(p: PlotType)
    ensures CreateCoveragePlot(Of(None)) == HistogramChart
    ensures CreateCoveragePlot(Of(Some(Lower(Name(p))))) == CreateCoveragePlot(p)
  {
    OfLowerName(p);
  }

  // ---------------------------------------------------------------- names and paths

  /** The output directory option: "./" when absent, a '/' appended unless it already ends
      with '/' or '\'. */
  function NormalizeOutputDir(option: Option<string>): (dir: string)
    ensures var given := if option.None? then "./" else option.value;
            (dir == given || dir == given + "/")
            && (EndsWith(given, "/") || EndsWith(given, "\\") ==> dir == given)
            && (EndsWith(dir, "/") || EndsWith(dir, "\\"))
  {
    var given := if option.None? then "./" else option.value;
    if EndsWith(given, "/") || EndsWith(given, "\\") then given else given + "/"
  }

  /** Normalising an already normalised directory changes nothing. */
  lemma NormalizeOutputDirIdempotent(option: Option<string>)
    ensures NormalizeOutputDir(Some(NormalizeOutputDir(option))) == NormalizeOutputDir(option)
  {
  }

  /** The image name: the sample name, joined with the region name by '_' when the region
      has a name that is not blank. */
  function PlotName(sampleName: string, regionName: Option<string>): (name: string)
    ensures IsBlank(regionName) ==> name == sampleName
    ensures !IsBlank(regionName) ==> name == sampleName + "_" + regionName.value
  {
    if IsBlank(regionName) then sampleName else sampleName + "_" + regionName.value
  }

  /** String.replaceAll(":", "_") */
  function ReplaceColons(s: string): (r: string)
    ensures |r| == |s|
    ensures forall i :: 0 <= i < |s| ==> r[i] == if s[i] == ':' then '_' else s[i]
  {
    seq(|s|, i requires 0 <= i < |s| => if s[i] == ':' then '_' else s[i])
  }

  /** The region part of a path holds no ':', and only the colons were changed. */
  lemma ReplaceColonsClean(s: string)
    ensures ':' !in ReplaceColons(s)
    ensures ReplaceColons(ReplaceColons(s)) == ReplaceColons(s)
    ensures (':' !in s) ==> ReplaceColons(s) == s
  {
    var r := ReplaceColons(s);
    assert forall i :: 0 <= i < |r| ==> r[i] != ':';
  }

  /** The three output files of a region: separate HTS image, separate OM image, single image. */
  datatype OutputPaths = OutputPaths(hts: string, om: string, single: string)

  function RegionPaths(dir: string, name: string, regionText: string, format: string): OutputPaths
  {
    var tail := ReplaceColons(regionText) + "." + format;
    OutputPaths(dir + name + "_hts_" + tail, dir + name + "_om_" + tail, dir + name + "_" + tail)
  }

  /** The three paths share the directory and name in front and the region and extension at
      the end, differ only by the infix "_hts_", "_om_" or "_", and are therefore distinct. */
  lemma RegionPathsShape(dir: string, name: string, regionText: string, format: string)
    ensures var p := RegionPaths(dir, name, regionText, format);
            |p.hts| == |p.single| + 4 && |p.om| == |p.single| + 3
            && p.hts != p.om && p.om != p.single && p.hts != p.single
    ensures var p := RegionPaths(dir, name, regionText, format);
            EndsWith(p.hts, "." + format) && EndsWith(p.om, "." + format) && EndsWith(p.single, "." + format)
  {
    var front, place := dir + name, ReplaceColons(regionText);
    PathEnds(front + "_hts_", place, format);
    PathEnds(front + "_om_", place, format);
    PathEnds(front + "_", place, format);
  }

  /** A path built as lead + region + "." + format ends with "." + format. */
  lemma PathEnds(lead: string, place: string, format: string)
    ensures EndsWith(lead + (place + "." + format), "." + format)
  {
    var tail := place + "." + format;
    Assoc(place, ".", format);
    assert (lead + tail)[|lead + tail| - |"." + format|..] == tail[|place|..];
    assert tail[|place|..] == "." + format;
  }

  /** StringUtils.join(sampleName, region.getName(), region): the three texts run together, a
      null name contributing nothing. */
  function PlotTitle(sampleName: string, regionName: Option<string>, regionText: string): (title: string)
    ensures regionName.None? ==> title == sampleName + regionText
    ensures regionName.Some? ==> title == sampleName + regionName.value + regionText
  {
    sampleName + (if regionName.None? then "" else regionName.value) + regionText
  }

  // ---------------------------------------------------------------- dispatch

  /** One call of CoveragePlot.plotCoverage. */
  datatype PlotCall = PlotCall(chart: ChartKind, title: string, xLabel: string, yLabel: string, path: string,
                               samplingType: SamplingType, entries: seq<Option<CoverageInfo>>, format: string)

  /** A list of entries as the non-null references it holds. */
  function Somes(infos: seq<CoverageInfo>): (refs: seq<Option<CoverageInfo>>)
    ensures |refs| == |infos|
    ensures forall i :: 0 <= i < |infos| ==> refs[i] == Some(infos[i])
  {
    seq(|infos|, i requires 0 <= i < |infos| => Some(infos[i]))
  }

  /** A list made of references only has no null, and reading it back gives the list. */
  lemma SomesUnwrap(infos: seq<CoverageInfo>)
    ensures !HasNull(Somes(infos))
    ensures Unwrap(Somes(infos)) == infos
  {
  }

  function Call(chart: ChartKind, title: string, path: string, samplingType: SamplingType,
                entries: seq<Option<CoverageInfo>>, format: string): PlotCall
  {
    PlotCall(chart, title, "Position", "Coverage", path, samplingType, entries, format)
  }

  /** plotRegionCoverage as written. In single-image mode the OM entry, null or not, is added
      to the HTS list (a null list raises a NullPointerException) and that list is plotted once;
      otherwise the HTS list and the OM entry, when present, are plotted separately. */
  function PlotRegionCoverage(paths: OutputPaths, title: string, singleImage: bool, samplingType: SamplingType,
                              plotType: PlotType, hts: Option<seq<CoverageInfo>>, om: Option<CoverageInfo>,
                              format: string): Result<seq<PlotCall>>
  {
    var chart := CreateCoveragePlot(plotType);
    if singleImage then
      if hts.None? then Failure(NullPointer)
      else Success([Call(chart, title, paths.single, samplingType, Somes(hts.value) + [om], format)])
    else
      var htsCalls := if hts.Some? then [Call(chart, title, paths.hts, samplingType, Somes(hts.value), format)] else [];
      var omCalls := if om.Some? then [Call(chart, title, paths.om, samplingType, [om], format)] else [];
      Success(htsCalls + omCalls)
  }

  /** What plotRegionCoverage asks of the chart: a null HTS list in single-image mode fails;
      otherwise every call uses the chart the plot type selects, the labels and the format, the
      single image plots the HTS list followed by the OM entry, and separate images plot the HTS
      list and the OM entry that exist, each without a null. */
  lemma DispatchAsWritten(paths: OutputPaths, title: string, singleImage: bool, samplingType: SamplingType,
                          plotType: PlotType, hts: Option<seq<CoverageInfo>>, om: Option<CoverageInfo>,
                          format: string)
    ensures var r := PlotRegionCoverage(paths, title, singleImage, samplingType, plotType, hts, om, format);
            (r.Failure? <==> singleImage && hts.None?) && (r.Failure? ==> r.error == NullPointer)
    ensures var r := PlotRegionCoverage(paths, title, singleImage, samplingType, plotType, hts, om, format);
            r.Success? ==>
              forall c :: c in r.value ==>
                c.chart == CreateCoveragePlot(plotType) && c.title == title && c.samplingType == samplingType
                && c.xLabel == "Position" && c.yLabel == "Coverage" && c.format == format
    ensures var r := PlotRegionCoverage(paths, title, singleImage, samplingType, plotType, hts, om, format);
            r.Success? && singleImage ==>
              |r.value| == 1 && r.value[0].path == paths.single && r.value[0].entries == Somes(hts.value) + [om]
    ensures var r := PlotRegionCoverage(paths, title, singleImage, samplingType, plotType, hts, om, format);
            r.Success? && !singleImage ==>
              |r.value| == (if hts.Some? then 1 else 0) + (if om.Some? then 1 else 0)
              && forall c :: c in r.value ==>
                   !HasNull(c.entries)
                   && ((hts.Some? && c.path == paths.hts && c.entries == Somes(hts.value))
                       || (om.Some? && c.path == paths.om && c.entries == [om]))
  {
    SomesUnwrap(if hts.Some? then hts.value else []);
  }

  /** In single-image mode the one list plotted holds a null exactly when the region has no
      OM entry, so plotCoverage then fails on it. */
  lemma SingleImageNull(paths: OutputPaths, title: string, samplingType: SamplingType, plotType: PlotType,
                        hts: seq<CoverageInfo>, om: Option<CoverageInfo>, format: string)
    ensures var r := PlotRegionCoverage(paths, title, true, samplingType, plotType, Some(hts), om, format);
            r.Success? && |r.value| == 1 && (HasNull(r.value[0].entries) <==> om.None?)
  {
    var entries := Somes(hts) + [om];
    if om.None? {
      assert entries[|hts|].None?;
    } else {
      assert forall i :: 0 <= i < |entries| ==> entries[i].Some?;
    }
  }

  /** plotRegionCoverage as evidently intended: the entries that exist are plotted, in one
      image or separately, and no null reaches plotCoverage. */
  function PlotRegionCoverageNullSafe(paths: OutputPaths, title: string, singleImage: bool,
                                      samplingType: SamplingType, plotType: PlotType,
                                      hts: Option<seq<CoverageInfo>>, om: Option<CoverageInfo>,
                                      format: string): (calls: seq<PlotCall>)
  {
    var chart := CreateCoveragePlot(plotType);
    var htsPart := if hts.Some? then hts.value else [];
    var omPart := if om.Some? then [om.value] else [];
    if singleImage then
      if hts.None? && om.None? then []
      else [Call(chart, title, paths.single, samplingType, Somes(htsPart + omPart), format)]
    else
      (if hts.Some? then [Call(chart, title, paths.hts, samplingType, Somes(htsPart), format)] else [])
      + (if om.Some? then [Call(chart, title, paths.om, samplingType, Somes(omPart), format)] else [])
  }

  /** The corrected dispatch never hands plotCoverage a null; it plots something exactly when
      the region has data; where the written code succeeds with an OM entry present it makes
      the same calls; and its single image holds exactly the HTS entries followed by the OM
      entry, when there is one. */
  lemma NullSafeDispatch(paths: OutputPaths, title: string, singleImage: bool, samplingType: SamplingType,
                         plotType: PlotType, hts: Option<seq<CoverageInfo>>, om: Option<CoverageInfo>,
                         format: string)
    ensures var calls := PlotRegionCoverageNullSafe(paths, title, singleImage, samplingType, plotType, hts, om, format);
            (forall c :: c in calls ==> !HasNull(c.entries))
            && (|calls| > 0 <==> hts.Some? || om.Some?)
            && (singleImage && |calls| > 0 ==>
                  |calls| == 1
                  && Unwrap(calls[0].entries)
                     == (if hts.Some? then hts.value else []) + (if om.Some? then [om.value] else []))
    ensures var r := PlotRegionCoverage(paths, title, singleImage, samplingType, plotType, hts, om, format);
            r.Success? && (om.Some? || !singleImage)
            ==> r.value == PlotRegionCoverageNullSafe(paths, title, singleImage, samplingType, plotType, hts, om, format)
  {
    var htsPart := if hts.Some? then hts.value else [];
    var omPart := if om.Some? then [om.value] else [];
    SomesUnwrap(htsPart);
    SomesUnwrap(omPart);
    SomesUnwrap(htsPart + omPart);
    if om.Some? {
      assert Somes(omPart) == [om];
      if hts.Some? {
        assert Somes(htsPart + omPart) == Somes(htsPart) + [om];
      }
    }
  }

  // ---------------------------------------------------------------- the per-region loop

  /** htsCoverage.forEach(c -> c.setCoverageLimit(limit)), on values. */
  function WithLimit(infos: seq<CoverageInfo>, limit: int): seq<CoverageInfo>
  {
    seq(|infos|, i requires 0 <= i < |infos| => infos[i].(coverageLimit := limit))
  }

  method SetCoverageLimits(infos: seq<CoverageInfo>, limit: int) returns (limited: seq<CoverageInfo>)
    ensures limited == WithLimit(infos, limit)
    ensures |limited| == |infos|
    ensures forall i :: 0 <= i < |infos| ==>
              limited[i].coverageLimit == limit && limited[i].(coverageLimit := infos[i].coverageLimit) == infos[i]
  {
    limited := [];
    for i := 0 to |infos|
      invariant limited == WithLimit(infos[..i], limit)
    {
      assert infos[..i + 1][..i] == infos[..i];
      limited := limited + [infos[i].(coverageLimit := limit)];
    }
    assert infos[..|infos|] == infos;
  }

  /** The command-line options the plotting loop reads. */
  datatype PlotOptions = PlotOptions(
    singleImage: bool,
    samplingType: SamplingType,
    plotType: PlotType,
    htsSamplingStep: int,
    bionanoSamplingStep: int,
    coverageLimitHts: int,
    coverageLimitOm: int,
    sampleName: string,
    outputDir: Option<string>,
    format: string)

  /** The plotCoverage calls made so far, and the failure that ended the run, if any. */
  datatype PlotRun = PlotRun(calls: seq<PlotCall>, failure: Option<Error>)

  /** Making the calls of one region in order: plotCoverage throws on a list holding a null,
      which ends the run after that call. */
  function Attempt(calls: seq<PlotCall>): (run: PlotRun)
    decreases |calls|
  {
    if |calls| == 0 then PlotRun([], None)
    else if HasNull(calls[0].entries) then PlotRun([calls[0]], Some(NullPointer))
    else
      var rest := Attempt(calls[1..]);
      PlotRun([calls[0]] + rest.calls, rest.failure)
  }

  /** Attempt fails exactly when some call holds a null, and without failure every call is made. */
  lemma {:induction false} AttemptSucceeds(calls: seq<PlotCall>)
    ensures Attempt(calls).failure.None? <==> forall c :: c in calls ==> !HasNull(c.entries)
    ensures Attempt(calls).failure.None? ==> Attempt(calls).calls == calls
    decreases |calls|
  {
    if |calls| > 0 && !HasNull(calls[0].entries) {
      AttemptSucceeds(calls[1..]);
      assert forall c :: c in calls ==> c == calls[0] || c in calls[1..];
    }
  }

  /** A failed attempt made the calls up to and including the first one holding a null. */
  lemma {:induction false} AttemptStops(calls: seq<PlotCall>)
    requires Attempt(calls).failure.Some?
    ensures var made := Attempt(calls).calls;
            Attempt(calls).failure == Some(NullPointer)
            && 0 < |made| <= |calls| && made == calls[..|made|]
            && HasNull(made[|made| - 1].entries)
            && forall j :: 0 <= j < |made| - 1 ==> !HasNull(made[j].entries)
    decreases |calls|
  {
    if !HasNull(calls[0].entries) {
      var rest := Attempt(calls[1..]);
      AttemptStops(calls[1..]);
      var made := [calls[0]] + rest.calls;
      assert Attempt(calls).calls == made;
      assert made[|made| - 1] == rest.calls[|rest.calls| - 1];
      forall j | 0 <= j < |made| - 1 ensures !HasNull(made[j].entries) {
        if j > 0 { assert made[j] == rest.calls[j - 1]; }
      }
      assert calls[..|made|] == [calls[0]] + calls[1..][..|rest.calls|];
    }
  }

  /** The calls an attempt makes are among the calls it was given. */
  lemma AttemptMadeGiven(calls: seq<PlotCall>)
    ensures forall c :: c in Attempt(calls).calls ==> c in calls
  {
    AttemptSucceeds(calls);
    if Attempt(calls).failure.Some? {
      AttemptStops(calls);
      var made := Attempt(calls).calls;
      forall c | c in made ensures c in calls {
        var j :| 0 <= j < |made| && made[j] == c;
        assert calls[j] == c;
      }
    }
  }

  /** With the corrected dispatch no plotCoverage call fails and every call is made. */
  lemma NullSafeNeverFails(paths: OutputPaths, title: string, singleImage: bool, samplingType: SamplingType,
                           plotType: PlotType, hts: Option<seq<CoverageInfo>>, om: Option<CoverageInfo>,
                           format: string)
    ensures var calls := PlotRegionCoverageNullSafe(paths, title, singleImage, samplingType, plotType, hts, om, format);
            Attempt(calls) == PlotRun(calls, None)
  {
    var calls := PlotRegionCoverageNullSafe(paths, title, singleImage, samplingType, plotType, hts, om, format);
    NullSafeDispatch(paths, title, singleImage, samplingType, plotType, hts, om, format);
    AttemptSucceeds(calls);
  }

  /** What plotCoverageMulti does for one region: nothing for a region without data; otherwise
      the entries get their limits and plotRegionCoverage runs on the region's names and paths. */
  function RegionOutcome(region: Region, htsMap: map<RegionKey, seq<CoverageInfo>>, omMap: map<RegionKey, CoverageInfo>,
                         opts: PlotOptions, dir: string, show: Region -> string): PlotRun
  {
    var hts := if Key(region) in htsMap then Some(WithLimit(htsMap[Key(region)], opts.coverageLimitHts)) else None;
    var om := if Key(region) in omMap then Some(omMap[Key(region)].(coverageLimit := opts.coverageLimitOm)) else None;
    if hts.None? && om.None? then PlotRun([], None)
    else
      var name := PlotName(opts.sampleName, region.name);
      var paths := RegionPaths(dir, name, show(region), opts.format);
      var title := PlotTitle(opts.sampleName, region.name, show(region));
      match PlotRegionCoverage(paths, title, opts.singleImage, opts.samplingType, opts.plotType, hts, om, opts.format)
      case Failure(e) => PlotRun([], Some(e))
      case Success(calls) => Attempt(calls)
  }

  /** One region of the loop: a region without data is skipped; separate images never fail and
      make one call per data source; a single image with HTS data makes its one call, which
      fails exactly when the region has no OM entry; a single image without HTS data fails
      before any call. */
  lemma RegionOutcomeCases(region: Region, htsMap: map<RegionKey, seq<CoverageInfo>>, omMap: map<RegionKey, CoverageInfo>,
                           opts: PlotOptions, dir: string, show: Region -> string)
    ensures var run := RegionOutcome(region, htsMap, omMap, opts, dir, show);
            (Key(region) !in htsMap && Key(region) !in omMap ==> run == PlotRun([], None))
            && (!opts.singleImage ==>
                  run.failure.None?
                  && |run.calls| == (if Key(region) in htsMap then 1 else 0) + (if Key(region) in omMap then 1 else 0)
                  && forall c :: c in run.calls ==> !HasNull(c.entries))
            && (opts.singleImage && Key(region) in htsMap ==>
                  |run.calls| == 1 && (run.failure.Some? <==> Key(region) !in omMap)
                  && (run.failure.Some? ==> run.failure == Some(NullPointer)))
            && (opts.singleImage && Key(region) !in htsMap && Key(region) in omMap ==>
                  run == PlotRun([], Some(NullPointer)))
  {
    var hts := if Key(region) in htsMap then Some(WithLimit(htsMap[Key(region)], opts.coverageLimitHts)) else None;
    var om := if Key(region) in omMap then Some(omMap[Key(region)].(coverageLimit := opts.coverageLimitOm)) else None;
    if hts.Some? || om.Some? {
      var name := PlotName(opts.sampleName, region.name);
      var paths := RegionPaths(dir, name, show(region), opts.format);
      var title := PlotTitle(opts.sampleName, region.name, show(region));
      var r := PlotRegionCoverage(paths, title, opts.singleImage, opts.samplingType, opts.plotType, hts, om, opts.format);
      DispatchAsWritten(paths, title, opts.singleImage, opts.samplingType, opts.plotType, hts, om, opts.format);
      if r.Success? {
        AttemptSucceeds(r.value);
        if opts.singleImage {
          SingleImageNull(paths, title, opts.samplingType, opts.plotType, hts.value, om, opts.format);
          if om.None? {
            AttemptStops(r.value);
          }
        }
      }
    }
  }

  /** Every entry plotRegionCoverage hands on is one of the HTS entries or the OM entry. */
  lemma DispatchEntries(paths: OutputPaths, title: string, singleImage: bool, samplingType: SamplingType,
                        plotType: PlotType, hts: Option<seq<CoverageInfo>>, om: Option<CoverageInfo>,
                        format: string)
    ensures var r := PlotRegionCoverage(paths, title, singleImage, samplingType, plotType, hts, om, format);
            r.Success? ==>
              forall c, e :: c in r.value && Some(e) in c.entries ==>
                (hts.Some? && e in hts.value) || om == Some(e)
  {
    var r := PlotRegionCoverage(paths, title, singleImage, samplingType, plotType, hts, om, format);
    DispatchAsWritten(paths, title, singleImage, samplingType, plotType, hts, om, format);
    if r.Success? {
      forall c, e | c in r.value && Some(e) in c.entries ensures (hts.Some? && e in hts.value) || om == Some(e) {
        var j :| 0 <= j < |c.entries| && c.entries[j] == Some(e);
        if hts.Some? && j < |hts.value| && c.entries[j] == Somes(hts.value)[j] {
          assert e == hts.value[j];
        }
      }
    }
  }

  /** Every entry handed to plotCoverage carries the limit of its source: it is one of the
      region's HTS entries with the HTS limit set, or the region's OM entry with the OM limit set. */
  lemma RegionEntriesLimited(region: Region, htsMap: map<RegionKey, seq<CoverageInfo>>, omMap: map<RegionKey, CoverageInfo>,
                             opts: PlotOptions, dir: string, show: Region -> string)
    ensures forall c, e :: c in RegionOutcome(region, htsMap, omMap, opts, dir, show).calls && Some(e) in c.entries ==>
              (Key(region) in htsMap
               && exists i :: 0 <= i < |htsMap[Key(region)]| && e == htsMap[Key(region)][i].(coverageLimit := opts.coverageLimitHts))
              || (Key(region) in omMap && e == omMap[Key(region)].(coverageLimit := opts.coverageLimitOm))
  {
    var hts := if Key(region) in htsMap then Some(WithLimit(htsMap[Key(region)], opts.coverageLimitHts)) else None;
    var om := if Key(region) in omMap then Some(omMap[Key(region)].(coverageLimit := opts.coverageLimitOm)) else None;
    if hts.Some? || om.Some? {
      var name := PlotName(opts.sampleName, region.name);
      var paths := RegionPaths(dir, name, show(region), opts.format);
      var title := PlotTitle(opts.sampleName, region.name, show(region));
      var r := PlotRegionCoverage(paths, title, opts.singleImage, opts.samplingType, opts.plotType, hts, om, opts.format);
      DispatchEntries(paths, title, opts.singleImage, opts.samplingType, opts.plotType, hts, om, opts.format);
      if r.Success? {
        AttemptMadeGiven(r.value);
        forall c, e | c in Attempt(r.value).calls && Some(e) in c.entries
          ensures (Key(region) in htsMap
                   && exists i :: 0 <= i < |htsMap[Key(region)]| && e == htsMap[Key(region)][i].(coverageLimit := opts.coverageLimitHts))
                  || (Key(region) in omMap && e == omMap[Key(region)].(coverageLimit := opts.coverageLimitOm))
        {
          assert c in r.value;
          if om != Some(e) {
            var i :| 0 <= i < |hts.value| && hts.value[i] == e;
          }
        }
      }
    }
  }

  /** The loop over the first n regions: regions in order, stopping at the first failure. */
  function RunOver(regions: seq<Region>, n: nat, htsMap: map<RegionKey, seq<CoverageInfo>>,
                   omMap: map<RegionKey, CoverageInfo>, opts: PlotOptions, dir: string, show: Region -> string): PlotRun
    requires n <= |regions|
    decreases n
  {
    if n == 0 then PlotRun([], None)
    else
      var before := RunOver(regions, n - 1, htsMap, omMap, opts, dir, show);
      if before.failure.Some? then before
      else
        var here := RegionOutcome(regions[n - 1], htsMap, omMap, opts, dir, show);
        PlotRun(before.calls + here.calls, here.failure)
  }

  /** Once a failure has ended the run, later regions change nothing. */
  lemma {:induction false} RunOverStops(regions: seq<Region>, n: nat, m: nat, htsMap: map<RegionKey, seq<CoverageInfo>>,
                                        omMap: map<RegionKey, CoverageInfo>, opts: PlotOptions, dir: string,
                                        show: Region -> string)
    requires n <= m <= |regions|
    requires RunOver(regions, n, htsMap, omMap, opts, dir, show).failure.Some?
    ensures RunOver(regions, m, htsMap, omMap, opts, dir, show) == RunOver(regions, n, htsMap, omMap, opts, dir, show)
    decreases m
  {
    if m > n {
      RunOverStops(regions, n, m - 1, htsMap, omMap, opts, dir, show);
    }
  }

  /** plotCoverageMulti: exits when neither table has an entry, and otherwise plots region by region. */
  function MultiRun(lines: seq<string>, valueOf: RegionParser, bams: seq<string>,
                    cmapRef: Option<string>, cmapQry: Option<string>, xmap: Option<string>,
                    htsOf: HtsCalculator, omOf: OmCalculator, opts: PlotOptions, show: Region -> string): PlotRun
  {
    var regions := ParsedRegions(lines, valueOf);
    var htsMap := HtsMap(bams, regions, opts.htsSamplingStep, htsOf);
    var omMap := OmMap(cmapRef, cmapQry, xmap, regions, opts.bionanoSamplingStep, omOf);
    if |htsMap| == 0 && |omMap| == 0 then PlotRun([], Some(MissingCoverageArguments))
    else RunOver(regions, |regions|, htsMap, omMap, opts, NormalizeOutputDir(opts.outputDir), show)
  }

  /** The single-image mode fault seen from the whole run: with BAM files, at least one region
      and no optical map configured, the first region's one plotCoverage call receives the HTS
      list with a null appended and the run ends there with a NullPointerException. */
  lemma SingleImageWithoutOmFails(lines: seq<string>, valueOf: RegionParser, bams: seq<string>,
                                  cmapRef: Option<string>, cmapQry: Option<string>, xmap: Option<string>,
                                  htsOf: HtsCalculator, omOf: OmCalculator, opts: PlotOptions, show: Region -> string)
    requires opts.singleImage && |bams| > 0 && |ParsedRegions(lines, valueOf)| > 0
    requires !OmConfigured(cmapRef, cmapQry, xmap)
    ensures var run := MultiRun(lines, valueOf, bams, cmapRef, cmapQry, xmap, htsOf, omOf, opts, show);
            run.failure == Some(NullPointer) && |run.calls| == 1 && HasNull(run.calls[0].entries)
  {
    var regions := ParsedRegions(lines, valueOf);
    var htsMap := HtsMap(bams, regions, opts.htsSamplingStep, htsOf);
    var omMap := OmMap(cmapRef, cmapQry, xmap, regions, opts.bionanoSamplingStep, omOf);
    var dir := NormalizeOutputDir(opts.outputDir);
    KeyListed(regions, 0);
    assert Key(regions[0]) in htsMap;
    assert omMap == map[];
    RegionOutcomeCases(regions[0], htsMap, omMap, opts, dir, show);
    RegionFirstCallNull(regions[0], htsMap, omMap, opts, dir, show);
    RunOverStops(regions, 1, |regions|, htsMap, omMap, opts, dir, show);
  }

  /** In single-image mode a region with HTS data and no OM entry makes one call, on a list
      holding a null. */
  lemma RegionFirstCallNull(region: Region, htsMap: map<RegionKey, seq<CoverageInfo>>, omMap: map<RegionKey, CoverageInfo>,
                            opts: PlotOptions, dir: string, show: Region -> string)
    requires opts.singleImage && Key(region) in htsMap && Key(region) !in omMap
    ensures var run := RegionOutcome(region, htsMap, omMap, opts, dir, show);
            |run.calls| == 1 && HasNull(run.calls[0].entries) && run.failure == Some(NullPointer)
  {
    var hts := WithLimit(htsMap[Key(region)], opts.coverageLimitHts);
    var name := PlotName(opts.sampleName, region.name);
    var paths := RegionPaths(dir, name, show(region), opts.format);
    var title := PlotTitle(opts.sampleName, region.name, show(region));
    SingleImageNull(paths, title, opts.samplingType, opts.plotType, hts, None, opts.format);
  }

  /** plotCoverageMulti over the lines of the region file. */
  method PlotCoverageMulti(lines: seq<string>, valueOf: RegionParser, bams: seq<string>,
                           cmapRef: Option<string>, cmapQry: Option<string>, xmap: Option<string>,
                           htsOf: HtsCalculator, omOf: OmCalculator, opts: PlotOptions, show: Region -> string)
    returns (run: PlotRun)
    ensures run == MultiRun(lines, valueOf, bams, cmapRef, cmapQry, xmap, htsOf, omOf, opts, show)
  {
    var outputDir := if opts.outputDir.None? then "./" else opts.outputDir.value;
    outputDir := if EndsWith(outputDir, "/") || EndsWith(outputDir, "\\") then outputDir else outputDir + "/";
    assert outputDir == NormalizeOutputDir(opts.outputDir);
    var regions := GetChromosomeRegions(lines, valueOf);
    var coverageInfosHts := GetCoverageInfoHts(bams, regions, opts.htsSamplingStep, htsOf);
    var coverageInfosOm := GetCoverageInfoOm(cmapRef, cmapQry, xmap, regions, opts.bionanoSamplingStep, omOf);
    if |coverageInfosHts| == 0 && |coverageInfosOm| == 0 {
      return PlotRun([], Some(MissingCoverageArguments));
    }
    run := PlotRegions(regions, coverageInfosHts, coverageInfosOm, opts, outputDir, show);
  }

  /** The loop of plotCoverageMulti: region by region, ending at the first failure. */
  method PlotRegions(regions: seq<Region>, coverageInfosHts: map<RegionKey, seq<CoverageInfo>>,
                     coverageInfosOm: map<RegionKey, CoverageInfo>, opts: PlotOptions, outputDir: string,
                     show: Region -> string)
    returns (run: PlotRun)
    ensures run == RunOver(regions, |regions|, coverageInfosHts, coverageInfosOm, opts, outputDir, show)
  {
    run := PlotRun([], None);
    for i := 0 to |regions|
      invariant run == RunOver(regions, i, coverageInfosHts, coverageInfosOm, opts, outputDir, show)
      invariant run.failure.None?
    {
      var here := PlotRegion(regions[i], coverageInfosHts, coverageInfosOm, opts, outputDir, show);
      run := PlotRun(run.calls + here.calls, here.failure);
      if here.failure.Some? {
        RunOverStops(regions, i + 1, |regions|, coverageInfosHts, coverageInfosOm, opts, outputDir, show);
        return;
      }
    }
  }

  /** The body of the loop of plotCoverageMulti for one region. */
  method PlotRegion(region: Region, coverageInfosHts: map<RegionKey, seq<CoverageInfo>>,
                    coverageInfosOm: map<RegionKey, CoverageInfo>, opts: PlotOptions, outputDir: string,
                    show: Region -> string)
    returns (here: PlotRun)
    ensures here == RegionOutcome(region, coverageInfosHts, coverageInfosOm, opts, outputDir, show)
  {
    var htsCoverage: Option<seq<CoverageInfo>> := None;
    if Key(region) in coverageInfosHts {
      htsCoverage := Some(coverageInfosHts[Key(region)]);
    }
    var omCoverage: Option<CoverageInfo> := None;
    if Key(region) in coverageInfosOm {
      omCoverage := Some(coverageInfosOm[Key(region)]);
    }
    if htsCoverage.None? && omCoverage.None? {
      return PlotRun([], None);
    }
    if htsCoverage.Some? {
      var limited := SetCoverageLimits(htsCoverage.value, opts.coverageLimitHts);
      htsCoverage := Some(limited);
    }
    if omCoverage.Some? {
      omCoverage := Some(omCoverage.value.(coverageLimit := opts.coverageLimitOm));
    }
    var name := PlotName(opts.sampleName, region.name);
    var paths := RegionPaths(outputDir, name, show(region), opts.format);
    var title := PlotTitle(opts.sampleName, region.name, show(region));
    var dispatched := PlotRegionCoverage(paths, title, opts.singleImage, opts.samplingType, opts.plotType,
                                         htsCoverage, omCoverage, opts.format);
    if dispatched.Failure? {
      return PlotRun([], Some(dispatched.error));
    }
    here := Attempt(dispatched.value);
  }
}
