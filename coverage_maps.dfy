/** The per-region coverage tables of the batch driver: one list of alignment (HTS) depth
    entries per region, one per BAM file in BAM order, and one optical map (OM) entry per
    region. The calculators that read the files are parameters. */
module CoverageMaps {
  import opened Common
  import opened Coverage
  import opened Regions

  /** getIntervalCoverage of the BAM calculator opened on a file: (bam, chromosome, start, end). */
  type HtsCalculator = (string, string, int, int) -> CoverageInfo

  /** getIntervalCoverage of the optical map calculator: (chromosome, start, end). */
  type OmCalculator = (string, int, int) -> CoverageInfo

  // ---------------------------------------------------------------- series names

  /** new File(path).getName(): what follows the last '/'. */
  function BaseName(path: string): (r: string)
    decreases |path|
  {
    if |path| == 0 || path[|path| - 1] == '/' then ""
    else BaseName(path[..|path| - 1]) + [path[|path| - 1]]
  }

  /** The base name is the end of the path after its last '/', and holds no '/' itself. */
  lemma {:induction false} BaseNameIsLastPart(path: string)
    ensures var r := BaseName(path);
            |r| <= |path| && r == path[|path| - |r|..]
            && (forall i :: 0 <= i < |r| ==> r[i] != '/')
            && (|r| < |path| ==> path[|path| - |r| - 1] == '/')
    decreases |path|
  {
    if |path| > 0 && path[|path| - 1] != '/' {
      BaseNameIsLastPart(path[..|path| - 1]);
    }
  }

  /** The index of the last '.' that no '/' or '\' follows, if any. */
  function ExtensionDot(name: string): (d: Option<nat>)
    ensures d.Some? ==> d.value < |name|
    decreases |name|
  {
    if |name| == 0 then None
    else
      var c := name[|name| - 1];
      if c == '.' then Some(|name| - 1)
      else if c == '/' || c == '\\' then None
      else ExtensionDot(name[..|name| - 1])
  }

  /** The extension dot is a '.', and neither '.' nor a separator follows it; without one,
      every '.' is followed by a separator. */
  lemma {:induction false} ExtensionDotIsLast(name: string)
    ensures var d := ExtensionDot(name);
            (d.Some? ==> d.value < |name| && name[d.value] == '.'
                         && forall i :: d.value < i < |name| ==> name[i] != '.' && name[i] != '/' && name[i] != '\\')
            && (d.None? ==> forall i :: 0 <= i < |name| && name[i] == '.' ==>
                              exists j :: i < j < |name| && (name[j] == '/' || name[j] == '\\'))
    decreases |name|
  {
    if |name| > 0 {
      var c := name[|name| - 1];
      if c != '.' && c != '/' && c != '\\' {
        var init := name[..|name| - 1];
        ExtensionDotIsLast(init);
        if ExtensionDot(name).None? {
          forall i | 0 <= i < |name| && name[i] == '.'
            ensures exists j :: i < j < |name| && (name[j] == '/' || name[j] == '\\')
          {
            assert init[i] == '.';
            var j :| i < j < |init| && (init[j] == '/' || init[j] == '\\');
            assert name[j] == init[j];
          }
        }
      }
    }
  }

  /** FilenameUtils.removeExtension: everything before the extension dot. */
  function RemoveExtension(name: string): (r: string)
  {
    match ExtensionDot(name)
    case None => name
    case Some(d) => name[..d]
  }

  /** getHtsCoverageInfoName */
  function HtsName(bam: string): (r: string)
    ensures |r| >= 4 && r[..4] == "hts_"
  {
    "hts_" + RemoveExtension(BaseName(bam))
  }

  /** The file name after the last directory separator is the base name. */
  lemma {:induction false} BaseNameOfPath(dir: string, file: string)
    requires forall i :: 0 <= i < |file| ==> file[i] != '/'
    ensures BaseName(dir + "/" + file) == file
    decreases |file|
  {
    var p := dir + "/" + file;
    if |file| > 0 {
      var init := file[..|file| - 1];
      assert p[..|p| - 1] == dir + "/" + init;
      BaseNameOfPath(dir, init);
      assert init + [file[|file| - 1]] == file;
    }
  }

  /** The extension is what follows the last dot. */
  lemma {:induction false} ExtensionDotOf(stem: string, ext: string)
    requires forall i :: 0 <= i < |ext| ==> ext[i] != '.' && ext[i] != '/' && ext[i] != '\\'
    ensures ExtensionDot(stem + "." + ext) == Some(|stem|)
    decreases |ext|
  {
    var n := stem + "." + ext;
    if |ext| > 0 {
      assert n[..|n| - 1] == stem + "." + ext[..|ext| - 1];
      ExtensionDotOf(stem, ext[..|ext| - 1]);
    }
  }

  /** A BAM path dir/stem.ext gives the series name hts_stem: the directory and the last
      extension are dropped, as in hts_sample.sorted for /data/sample.sorted.bam. */
  lemma HtsNameOfPath(dir: string, stem: string, ext: string)
    requires forall i :: 0 <= i < |stem| ==> stem[i] != '/'
    requires forall i :: 0 <= i < |ext| ==> ext[i] != '.' && ext[i] != '/' && ext[i] != '\\'
    ensures HtsName(dir + "/" + stem + "." + ext) == "hts_" + stem
  {
    var file := stem + "." + ext;
    assert dir + "/" + stem + "." + ext == dir + "/" + file;
    BaseNameOfPath(dir, file);
    ExtensionDotOf(stem, ext);
    assert file[..|stem|] == stem;
  }

  // ---------------------------------------------------------------- the HTS table

  /** The entry getCoverageInfoHts stores for one BAM file and the regions with coordinates k. */
  function HtsEntry(bam: string, k: RegionKey, samplingSize: int, coverageOf: HtsCalculator): CoverageInfo
  {
    coverageOf(bam, k.chromosome, k.start, k.end)
      .(samplingSize := samplingSize, color := Some(Red), name := HtsName(bam))
  }

  /** How often the coordinates k occur among the first n regions of the list. */
  function CountBelow(regions: seq<Region>, n: nat, k: RegionKey): (c: nat)
    requires n <= |regions|
    ensures c <= n
    decreases n
  {
    if n == 0 then 0 else CountBelow(regions, n - 1, k) + (if Key(regions[n - 1]) == k then 1 else 0)
  }

  /** How often the coordinates k occur in the list, whatever the regions' names. */
  function Count(regions: seq<Region>, k: RegionKey): (c: nat)
    ensures c <= |regions|
  {
    CountBelow(regions, |regions|, k)
  }

  /** The distinct keys among the first n regions of the list. */
  function Listed(regions: seq<Region>, n: nat): set<RegionKey>
    requires n <= |regions|
  {
    set j | 0 <= j < n :: Key(regions[j])
  }

  /** The distinct keys of the list. */
  function Keys(regions: seq<Region>): set<RegionKey>
  {
    Listed(regions, |regions|)
  }

  lemma ListedSnoc(regions: seq<Region>, n: nat)
    requires n < |regions|
    ensures Listed(regions, n + 1) == Listed(regions, n) + {Key(regions[n])}
  {
  }

  lemma {:induction false} CountBelowZero(regions: seq<Region>, n: nat, k: RegionKey)
    requires n <= |regions|
    ensures CountBelow(regions, n, k) == 0 <==> k !in Listed(regions, n)
    decreases n
  {
    if n > 0 {
      CountBelowZero(regions, n - 1, k);
      ListedSnoc(regions, n - 1);
    }
  }

  /** A region's coordinates occur at least once in the list it comes from. */
  lemma KeyListed(regions: seq<Region>, i: nat)
    requires i < |regions|
    ensures Key(regions[i]) in Keys(regions)
    ensures Count(regions, Key(regions[i])) >= 1
  {
    CountBelowZero(regions, |regions|, Key(regions[i]));
  }

  function Repeat(x: CoverageInfo, n: nat): (s: seq<CoverageInfo>)
    ensures |s| == n && forall i :: 0 <= i < n ==> s[i] == x
    decreases n
  {
    if n == 0 then [] else Repeat(x, n - 1) + [x]
  }

  /** The list of the key k: for each BAM in order, one entry per region with those coordinates. */
  function HtsList(bams: seq<string>, regions: seq<Region>, k: RegionKey, samplingSize: int, coverageOf: HtsCalculator): seq<CoverageInfo>
    decreases |bams|
  {
    if |bams| == 0 then []
    else HtsList(bams[..|bams| - 1], regions, k, samplingSize, coverageOf)
         + Repeat(HtsEntry(bams[|bams| - 1], k, samplingSize, coverageOf), Count(regions, k))
  }

  /** The table getCoverageInfoHts returns: empty without BAM files or regions, otherwise keyed
      by the coordinates of every listed region. */
  function HtsMap(bams: seq<string>, regions: seq<Region>, samplingSize: int, coverageOf: HtsCalculator): map<RegionKey, seq<CoverageInfo>>
  {
    if |bams| == 0 || |regions| == 0 then map[]
    else map k | k in Keys(regions) :: HtsList(bams, regions, k, samplingSize, coverageOf)
  }

  /** The table while BAM file b is being read: regions[..q] have had its entry appended. */
  ghost predicate HtsTableAt(coverages: map<RegionKey, seq<CoverageInfo>>, bams: seq<string>, regions: seq<Region>,
                             b: nat, q: nat, samplingSize: int, coverageOf: HtsCalculator)
  {
    b < |bams| && q <= |regions|
    && coverages.Keys == Listed(regions, if b > 0 then |regions| else q)
    && forall k | k in coverages ::
         coverages[k] == HtsList(bams[..b], regions, k, samplingSize, coverageOf)
                         + Repeat(HtsEntry(bams[b], k, samplingSize, coverageOf), CountBelow(regions, q, k))
  }

  /** The table once BAM files bams[..b] have been read. */
  ghost predicate HtsTableAfter(coverages: map<RegionKey, seq<CoverageInfo>>, bams: seq<string>, regions: seq<Region>,
                                b: nat, samplingSize: int, coverageOf: HtsCalculator)
  {
    b <= |bams|
    && coverages.Keys == (if b > 0 then Keys(regions) else {})
    && forall k | k in coverages :: coverages[k] == HtsList(bams[..b], regions, k, samplingSize, coverageOf)
  }

  /** getCoverageInfoHts: for each BAM, for each region, the annotated entry is appended to the
      list stored under the region's coordinates, which is created on first use. */
  method GetCoverageInfoHts(bams: seq<string>, regions: seq<Region>, samplingSize: int, coverageOf: HtsCalculator)
    returns (coverages: map<RegionKey, seq<CoverageInfo>>)
    ensures coverages == HtsMap(bams, regions, samplingSize, coverageOf)
  {
    if |bams| == 0 || |regions| == 0 {
      return map[];
    }
    coverages := map[];
    for b := 0 to |bams|
      invariant HtsTableAfter(coverages, bams, regions, b, samplingSize, coverageOf)
    {
      var bam := bams[b];
      HtsTableStart(coverages, bams, regions, b, samplingSize, coverageOf);
      for q := 0 to |regions|
        invariant HtsTableAt(coverages, bams, regions, b, q, samplingSize, coverageOf)
      {
        var region := regions[q];
        var coverageInfos := if Key(region) in coverages then coverages[Key(region)] else [];
        var coverageInfo := coverageOf(bam, region.chromosome, region.start, region.end);
        coverageInfo := coverageInfo.(samplingSize := samplingSize, color := Some(Red), name := HtsName(bam));
        HtsTableStep(coverages, bams, regions, b, q, samplingSize, coverageOf);
        coverages := coverages[Key(region) := coverageInfos + [coverageInfo]];
      }
      HtsTableEnd(coverages, bams, regions, b, samplingSize, coverageOf);
    }
    HtsTableDone(coverages, bams, regions, samplingSize, coverageOf);
  }

  lemma HtsTableStart(coverages: map<RegionKey, seq<CoverageInfo>>, bams: seq<string>, regions: seq<Region>,
                      b: nat, samplingSize: int, coverageOf: HtsCalculator)
    requires b < |bams| && HtsTableAfter(coverages, bams, regions, b, samplingSize, coverageOf)
    ensures HtsTableAt(coverages, bams, regions, b, 0, samplingSize, coverageOf)
  {
  }

  /** Appending the entry of regions[q] keeps the table in step. */
  lemma HtsTableStep(coverages: map<RegionKey, seq<CoverageInfo>>, bams: seq<string>, regions: seq<Region>,
                     b: nat, q: nat, samplingSize: int, coverageOf: HtsCalculator)
    requires q < |regions| && HtsTableAt(coverages, bams, regions, b, q, samplingSize, coverageOf)
    ensures var key := Key(regions[q]);
            var e := HtsEntry(bams[b], key, samplingSize, coverageOf);
            var list := if key in coverages then coverages[key] else [];
            HtsTableAt(coverages[key := list + [e]], bams, regions, b, q + 1, samplingSize, coverageOf)
  {
    var key := Key(regions[q]);
    var e := HtsEntry(bams[b], key, samplingSize, coverageOf);
    var list := if key in coverages then coverages[key] else [];
    var next := coverages[key := list + [e]];
    HtsTableStepKeys(coverages.Keys, regions, b, q);
    assert next.Keys == coverages.Keys + {key};
    forall k | k in next
      ensures next[k] == HtsList(bams[..b], regions, k, samplingSize, coverageOf)
                         + Repeat(HtsEntry(bams[b], k, samplingSize, coverageOf), CountBelow(regions, q + 1, k))
    {
      HtsTableStepAt(coverages, bams, regions, b, q, samplingSize, coverageOf, k);
    }
  }

  lemma HtsTableStepKeys(keys: set<RegionKey>, regions: seq<Region>, b: nat, q: nat)
    requires q < |regions| && keys == Listed(regions, if b > 0 then |regions| else q)
    ensures keys + {Key(regions[q])} == Listed(regions, if b > 0 then |regions| else q + 1)
  {
    ListedSnoc(regions, q);
    if b > 0 {
      assert Key(regions[q]) in Listed(regions, |regions|);
    }
  }

  lemma HtsTableStepAt(coverages: map<RegionKey, seq<CoverageInfo>>, bams: seq<string>, regions: seq<Region>,
                       b: nat, q: nat, samplingSize: int, coverageOf: HtsCalculator, k: RegionKey)
    requires q < |regions| && HtsTableAt(coverages, bams, regions, b, q, samplingSize, coverageOf)
    requires k in coverages || k == Key(regions[q])
    ensures var key := Key(regions[q]);
            var e := HtsEntry(bams[b], key, samplingSize, coverageOf);
            var list := if key in coverages then coverages[key] else [];
            coverages[key := list + [e]][k]
              == HtsList(bams[..b], regions, k, samplingSize, coverageOf)
                 + Repeat(HtsEntry(bams[b], k, samplingSize, coverageOf), CountBelow(regions, q + 1, k))
  {
    var key := Key(regions[q]);
    var h := HtsList(bams[..b], regions, k, samplingSize, coverageOf);
    var x := HtsEntry(bams[b], k, samplingSize, coverageOf);
    var c := CountBelow(regions, q, k);
    var list := if key in coverages then coverages[key] else [];
    if k == key {
      if k !in coverages {
        CountBelowZero(regions, q, k);
        assert b == 0;
      }
      assert list == h + Repeat(x, c);
      RepeatSnoc(h, x, c);
      UpdateHit(coverages, key, list + [x]);
    } else {
      assert coverages[k] == h + Repeat(x, c);
      UpdateMiss(coverages, key, list + [HtsEntry(bams[b], key, samplingSize, coverageOf)], k);
    }
  }

  lemma UpdateHit(m: map<RegionKey, seq<CoverageInfo>>, k: RegionKey, v: seq<CoverageInfo>)
    ensures m[k := v][k] == v
  {
  }

  lemma UpdateMiss(m: map<RegionKey, seq<CoverageInfo>>, k: RegionKey, v: seq<CoverageInfo>, r: RegionKey)
    requires r != k && r in m
    ensures m[k := v][r] == m[r]
  {
  }

  lemma RepeatSnoc(h: seq<CoverageInfo>, x: CoverageInfo, c: nat)
    ensures h + Repeat(x, c) + [x] == h + Repeat(x, c + 1)
  {
  }

  lemma HtsTableEnd(coverages: map<RegionKey, seq<CoverageInfo>>, bams: seq<string>, regions: seq<Region>,
                    b: nat, samplingSize: int, coverageOf: HtsCalculator)
    requires HtsTableAt(coverages, bams, regions, b, |regions|, samplingSize, coverageOf)
    ensures HtsTableAfter(coverages, bams, regions, b + 1, samplingSize, coverageOf)
  {
    assert bams[..b + 1][..b] == bams[..b];
    forall k | k in coverages ensures coverages[k] == HtsList(bams[..b + 1], regions, k, samplingSize, coverageOf) {
      assert HtsList(bams[..b + 1], regions, k, samplingSize, coverageOf)
          == HtsList(bams[..b], regions, k, samplingSize, coverageOf)
             + Repeat(HtsEntry(bams[b], k, samplingSize, coverageOf), Count(regions, k));
    }
  }

  lemma HtsTableDone(coverages: map<RegionKey, seq<CoverageInfo>>, bams: seq<string>, regions: seq<Region>,
                     samplingSize: int, coverageOf: HtsCalculator)
    requires |bams| > 0 && |regions| > 0 && HtsTableAfter(coverages, bams, regions, |bams|, samplingSize, coverageOf)
    ensures coverages == HtsMap(bams, regions, samplingSize, coverageOf)
  {
    assert bams[..|bams|] == bams;
    var m := HtsMap(bams, regions, samplingSize, coverageOf);
    forall k | k in coverages ensures coverages[k] == m[k] {
      assert coverages[k] == HtsList(bams[..|bams|], regions, k, samplingSize, coverageOf);
    }
    assert coverages == m;
  }

  /** Every entry of a list is the calculator's result for its coordinates annotated with the
      sampling size, the red colour and the name of one of the BAM files. */
  lemma {:induction false} HtsListEntries(bams: seq<string>, regions: seq<Region>, k: RegionKey, samplingSize: int, coverageOf: HtsCalculator)
    ensures forall e :: e in HtsList(bams, regions, k, samplingSize, coverageOf) ==>
              exists b :: 0 <= b < |bams| && e == HtsEntry(bams[b], k, samplingSize, coverageOf)
    decreases |bams|
  {
    if |bams| > 0 {
      var init := bams[..|bams| - 1];
      HtsListEntries(init, regions, k, samplingSize, coverageOf);
      forall e | e in HtsList(bams, regions, k, samplingSize, coverageOf)
        ensures exists b :: 0 <= b < |bams| && e == HtsEntry(bams[b], k, samplingSize, coverageOf)
      {
        if e in HtsList(init, regions, k, samplingSize, coverageOf) {
          var b :| 0 <= b < |init| && e == HtsEntry(init[b], k, samplingSize, coverageOf);
          assert init[b] == bams[b];
        } else {
          assert e == HtsEntry(bams[|bams| - 1], k, samplingSize, coverageOf);
        }
      }
    }
  }

  /** A list holds one entry per BAM file for every region line with its coordinates, so
      region lines repeating the coordinates under other names make it longer. */
  lemma {:induction false} HtsListLength(bams: seq<string>, regions: seq<Region>, k: RegionKey, samplingSize: int, coverageOf: HtsCalculator)
    ensures |HtsList(bams, regions, k, samplingSize, coverageOf)| == |bams| * Count(regions, k)
    decreases |bams|
  {
    if |bams| > 0 {
      var init := bams[..|bams| - 1];
      var c := Count(regions, k);
      HtsListLength(init, regions, k, samplingSize, coverageOf);
      assert |HtsList(bams, regions, k, samplingSize, coverageOf)| == |init| * c + c;
      MulSucc(|init|, c);
    }
  }

  lemma MulSucc(n: nat, c: nat)
    ensures (n + 1) * c == n * c + c
  {
  }

  /** Coordinates listed once get exactly one entry per BAM file, in BAM order. */
  lemma {:induction false} HtsListOnce(bams: seq<string>, regions: seq<Region>, k: RegionKey, samplingSize: int, coverageOf: HtsCalculator)
    requires Count(regions, k) == 1
    ensures |HtsList(bams, regions, k, samplingSize, coverageOf)| == |bams|
    ensures forall b :: 0 <= b < |bams| ==>
              HtsList(bams, regions, k, samplingSize, coverageOf)[b] == HtsEntry(bams[b], k, samplingSize, coverageOf)
    decreases |bams|
  {
    if |bams| > 0 {
      var init := bams[..|bams| - 1];
      HtsListOnce(init, regions, k, samplingSize, coverageOf);
      var e := HtsEntry(bams[|bams| - 1], k, samplingSize, coverageOf);
      assert Repeat(e, 1) == [e];
      assert HtsList(bams, regions, k, samplingSize, coverageOf) == HtsList(init, regions, k, samplingSize, coverageOf) + [e];
      forall b | 0 <= b < |init|
        ensures HtsList(bams, regions, k, samplingSize, coverageOf)[b] == HtsEntry(bams[b], k, samplingSize, coverageOf)
      {
        assert init[b] == bams[b];
      }
    }
  }

  /** The properties of every entry of every list of the table. */
  lemma HtsMapEntries(bams: seq<string>, regions: seq<Region>, samplingSize: int, coverageOf: HtsCalculator, k: RegionKey, e: CoverageInfo)
    requires k in HtsMap(bams, regions, samplingSize, coverageOf) && e in HtsMap(bams, regions, samplingSize, coverageOf)[k]
    ensures e.samplingSize == samplingSize && e.color == Some(Red)
    ensures exists b :: 0 <= b < |bams| && e.name == HtsName(bams[b])
  {
    HtsListEntries(bams, regions, k, samplingSize, coverageOf);
    var b :| 0 <= b < |bams| && e == HtsEntry(bams[b], k, samplingSize, coverageOf);
  }

  // ---------------------------------------------------------------- the OM table

  /** The entry getCoverageInfoOm stores for the regions with coordinates k. */
  function OmEntry(k: RegionKey, samplingSize: int, coverageOf: OmCalculator): CoverageInfo
  {
    coverageOf(k.chromosome, k.start, k.end)
      .(samplingSize := samplingSize, color := Some(Blue), name := "OM")
  }

  /** The OM table is built only when all three input paths are given. */
  predicate OmConfigured(cmapRef: Option<string>, cmapQry: Option<string>, xmap: Option<string>)
  {
    !IsBlank(cmapRef) && !IsBlank(cmapQry) && !IsBlank(xmap)
  }

  function OmMap(cmapRef: Option<string>, cmapQry: Option<string>, xmap: Option<string>,
                 regions: seq<Region>, samplingSize: int, coverageOf: OmCalculator): map<RegionKey, CoverageInfo>
  {
    if !OmConfigured(cmapRef, cmapQry, xmap) || |regions| == 0 then map[]
    else map k | k in Keys(regions) :: OmEntry(k, samplingSize, coverageOf)
  }

  /** getCoverageInfoOm: empty when a path is blank or there is no region; otherwise one
      entry per distinct coordinates, a later region line replacing an earlier one's. */
  method GetCoverageInfoOm(cmapRef: Option<string>, cmapQry: Option<string>, xmap: Option<string>,
                           regions: seq<Region>, samplingSize: int, coverageOf: OmCalculator)
    returns (coverageInfos: map<RegionKey, CoverageInfo>)
    ensures coverageInfos == OmMap(cmapRef, cmapQry, xmap, regions, samplingSize, coverageOf)
  {
    if IsBlank(cmapRef) || IsBlank(cmapQry) || IsBlank(xmap) || |regions| == 0 {
      return map[];
    }
    coverageInfos := map[];
    for i := 0 to |regions|
      invariant coverageInfos == map k | k in Listed(regions, i) :: OmEntry(k, samplingSize, coverageOf)
    {
      ListedSnoc(regions, i);
      var region := regions[i];
      var coverageInfo := coverageOf(region.chromosome, region.start, region.end);
      coverageInfo := coverageInfo.(samplingSize := samplingSize, color := Some(Blue), name := "OM");
      coverageInfos := coverageInfos[Key(region) := coverageInfo];
    }
  }

  /** Both tables are empty exactly when neither input is configured (given some region). */
  lemma MapsEmpty(bams: seq<string>, cmapRef: Option<string>, cmapQry: Option<string>, xmap: Option<string>,
                  regions: seq<Region>, htsStep: int, omStep: int, hts: HtsCalculator, om: OmCalculator)
    ensures |HtsMap(bams, regions, htsStep, hts)| == 0 <==> |bams| == 0 || |regions| == 0
    ensures |OmMap(cmapRef, cmapQry, xmap, regions, omStep, om)| == 0 <==>
              !OmConfigured(cmapRef, cmapQry, xmap) || |regions| == 0
  {
    if |regions| > 0 {
      KeyListed(regions, 0);
      if |bams| > 0 {
        assert Key(regions[0]) in HtsMap(bams, regions, htsStep, hts);
      }
      if OmConfigured(cmapRef, cmapQry, xmap) {
        assert Key(regions[0]) in OmMap(cmapRef, cmapQry, xmap, regions, omStep, om);
      }
    }
  }
}
