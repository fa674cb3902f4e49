# om-hts-coverage: a verified model of the coverage plotting core

om-hts-coverage compares sequencing depth from two sources over genomic regions:
- short-read alignments (HTS, one BAM file per sample);
- an optical map (OM, Bionano files).

The program has two modes:
- a statistics mode, which writes one tab separated line per region;
- a plotting mode, which draws the depth of each region as a chart.

This project models, in Dafny, the logic between the depth calculators and the chart library:

- **Sampling a depth array** (`coverage_plot_base.dfy`, module `CoveragePlotBase`). Each of the
  four samplers of `CoveragePlotBase` turns a depth array into a series of (position, value)
  points:
  - none: every value;
  - random: one drawn value per bucket of `samplingSize - 1`;
  - mean: a truncated average per bucket of `samplingSize - 1`;
  - median: the lower median per bucket of `samplingSize`.

  Each sampler is a method with the loop of the source. It is proved against a predicate that
  states, bucket by bucket, which point is emitted.
- **Assembling a plot** (same module):
  - `createDataset` picks a sampler per entry. It skips null entries, and a sampling size
    below 3 forces "none" for that entry and every later one.
  - The axis and colour reconciliation of `plotCoverage`: the domain range from the least start
    to the greatest end, the value-axis ceiling at the largest limit, and the all-or-nothing
    colour check. Each is a loop proved equal to a specification function (`MinStart`,
    `MaxEnd`, `MaxLimit`) whose own contract characterises it as a minimum or maximum.
  - `plotCoverage` itself fails with a null dereference when the list holds a null.
- **Sorting** (`sorting.dfy`). `Collections.sort` on the median scratch list is modelled by an
  insertion sort; Java itself uses a merge sort (TimSort). The model's sort is proved sorted
  and a permutation of its input. A sorted permutation is unique, so the choice of algorithm
  does not change the result. Its middle element is proved to be the lower median by rank.
- **Plot type** (`plot_type.dfy`). `PlotType.of` is a lenient parser: it trims, lower-cases and
  defaults to HISTOGRAM.
- **Region file** (`regions.dfy`). `getChromosomeRegions` reads lines as `region` or
  `name<TAB>region`. `String.split("\t")` is modelled exactly, including its removal of
  trailing empty fields.
- **Coverage tables** (`coverage_maps.dfy`):
  - `getCoverageInfoHts` builds one list per region, with one entry per BAM file in BAM order.
  - `getCoverageInfoOm` builds one entry per region.
  - Both tables are hash maps keyed by `ChromosomeRegion`, whose identity is its chromosome,
    start and end; the name is not part of it. The model keys them by `RegionKey`, those three
    coordinates. Region lines that repeat coordinates under another name therefore share a
    list, which holds one entry per BAM file for each such line.
  - `getHtsCoverageInfoName` gives `hts_` plus the file name without its extension.
- **Statistics mode** (`statistics.dfy`):
  - the header of `getStatisticsHeader`, built with `+=` string literals, is proved equal to
    the tab join of its column list;
  - each row of `calculateStatistics` is likewise the tab join of its field list;
  - the whole table has one header line and one line per region.

  A run with regions but no BAM file writes the header and then fails: the progress message
  reads the size of the HTS table, which is null in that case.
- **Plotting mode** (`batch.dfy`):
  - `createCoveragePlot`;
  - output directory normalisation, the image name, the three output paths and the title;
  - `plotRegionCoverage`, in single-image and separate mode;
  - the per-region loop of `plotCoverageMulti`, which sets the coverage limits and stops at the
    first failure.

`common.dfy` holds the Java behaviours shared by the modules:
- null as `Option`;
- integer division that truncates toward zero;
- `StringUtils.isBlank`;
- `%d` printing;
- joining and splitting on tabs.

`coverage_info.dfy` holds the `CoverageInfo` record.

External code the model cannot see becomes function parameters:
- the BAM and optical map calculators;
- `ChromosomeRegion.valueOf` and `toString`;
- the region length;
- `CoverageStatistics`.

`java.util.Random` becomes a sequence of draws, one per bucket, each in `[0, samplingSize - 1)`.

## Model

| member | source | states |
|---|---|---|
| PlotTypes.Of | src/main/java/cz/vsb/genetics/coverage/main/PlotType.java:29-41 | null gives HISTOGRAM; after trimming and lower-casing, "line" gives LINE, "spline" gives SPLINE and every other text gives HISTOGRAM, so the parser is total |
| PlotTypes.OfLowerName | src/main/java/cz/vsb/genetics/coverage/main/PlotType.java:22-38 | round trip: the lower-cased name of each constant parses back to that constant |
| PlotTypes.OfPaddedLine | src/main/java/cz/vsb/genetics/coverage/main/PlotType.java:33-37 | " Line " parses to LINE |
| PlotTypes.OfNormalised | src/main/java/cz/vsb/genetics/coverage/main/PlotType.java:33 | normalising the input first changes nothing: of(lower(trim(s))) == of(s) |
| PlotTypes.Lower | src/main/java/cz/vsb/genetics/coverage/main/PlotType.java:33 | lower-casing keeps the length and maps each character on its own |
| PlotTypes.LowerIdempotent | src/main/java/cz/vsb/genetics/coverage/main/PlotType.java:33 | lower-casing twice is lower-casing once |
| PlotTypes.TrimIdempotent | src/main/java/cz/vsb/genetics/coverage/main/PlotType.java:33 | trimming twice is trimming once |
| PlotTypes.TrimStartLower | src/main/java/cz/vsb/genetics/coverage/main/PlotType.java:33 | stripping leading blanks commutes with lower-casing |
| PlotTypes.TrimEndLower | src/main/java/cz/vsb/genetics/coverage/main/PlotType.java:33 | stripping trailing blanks commutes with lower-casing |
| CoveragePlotBase.SampleNone | src/main/java/cz/vsb/genetics/coverage/main/CoveragePlotBase.java:115-118 | exactly one point per value, point i being (positionStart + i, coverage[i]) |
| CoveragePlotBase.SampleRandom | src/main/java/cz/vsb/genetics/coverage/main/CoveragePlotBase.java:120-134 | with b = samplingSize - 1: ceil(len / b) points; point k takes the drawn value of bucket k at the bucket start, or, when the draw passes the end, the last value at positionEnd |
| CoveragePlotBase.RandomPointInBucket | src/main/java/cz/vsb/genetics/coverage/main/CoveragePlotBase.java:124-132 | the value of point k lies in bucket k, at an index in [k*b, min(k*b + b, len)); clamping happens only in the last bucket |
| CoveragePlotBase.SampleMean | src/main/java/cz/vsb/genetics/coverage/main/CoveragePlotBase.java:136-153 | with b = samplingSize - 1: len / b + (len % b > 0 ? 1 : 0) points; full bucket k emits (positionStart + (k+1)*b - 1 - b/2, sum / b) with truncating division; a remainder of r > 0 values emits (positionEnd - r/2, sum of the last r / r) |
| CoveragePlotBase.MeanBucketStep | src/main/java/cz/vsb/genetics/coverage/main/CoveragePlotBase.java:141-148 | the point emitted when the counter reaches b at index i is the point of full bucket k, and i + 1 == (k+1)*b |
| CoveragePlotBase.MeanLeftover | src/main/java/cz/vsb/genetics/coverage/main/CoveragePlotBase.java:151-152 | after the loop, a non-zero counter adds the remainder point and completes the sampled series |
| CoveragePlotBase.SampleMedian | src/main/java/cz/vsb/genetics/coverage/main/CoveragePlotBase.java:155-174 | with s = samplingSize (the full size): len / s + (len % s > 0 ? 1 : 0) points; full bucket k emits (positionStart + (k+1)*s - 1 - s/2, lower median of the bucket); a remainder of r > 0 values emits (positionEnd - r/2, their lower median); the scratch list always holds exactly the values of the current bucket |
| CoveragePlotBase.MedianBucketStep | src/main/java/cz/vsb/genetics/coverage/main/CoveragePlotBase.java:160-167 | the point emitted when the list reaches s values at index i is the point of full bucket k, and i + 1 == (k+1)*s |
| CoveragePlotBase.MedianEmit | src/main/java/cz/vsb/genetics/coverage/main/CoveragePlotBase.java:163-167 | a full list is sorted and its middle value becomes the point of the bucket ending at index i, which keeps every point emitted so far a full-bucket point |
| CoveragePlotBase.MedianLeftover | src/main/java/cz/vsb/genetics/coverage/main/CoveragePlotBase.java:170-173 | after the loop, a non-empty scratch list is sorted and adds the remainder point, completing the sampled series |
| Sorting.SortPermutes | src/main/java/cz/vsb/genetics/coverage/main/CoveragePlotBase.java:164 | sorting the scratch list keeps exactly its values (same multiset) |
| Sorting.SortSorted | src/main/java/cz/vsb/genetics/coverage/main/CoveragePlotBase.java:164 | the sorted list is in ascending order |
| Sorting.SortCounts | src/main/java/cz/vsb/genetics/coverage/main/CoveragePlotBase.java:164 | sorting keeps the number of values below and at most any bound |
| Sorting.LowerMedianRank | src/main/java/cz/vsb/genetics/coverage/main/CoveragePlotBase.java:165 | sorted[(size - 1) / 2] is a value of the bucket with at most (size-1)/2 values below it and at least (size-1)/2 + 1 values at most it: the lower median |
| Sorting.LowerMedianExample | src/main/java/cz/vsb/genetics/coverage/main/CoveragePlotBase.java:164-165 | the bucket [4, 1, 3, 2] sorts to [1, 2, 3, 4] and yields 2 |
| CoveragePlotBase.SampleWith | src/main/java/cz/vsb/genetics/coverage/main/CoveragePlotBase.java:102-107 | the switch applies the sampler of the given type: its series satisfies that type's sampling property |
| CoveragePlotBase.CreateDataset | src/main/java/cz/vsb/genetics/coverage/main/CoveragePlotBase.java:89-113 | one series per non-null entry, in list order, keyed by the entry's name; once an entry with samplingSize < 3 is seen, it and every later entry are sampled with NONE; otherwise NONE, MEAN and MEDIAN pick their samplers and every other type the random one |
| CoveragePlotBase.PresentAll | src/main/java/cz/vsb/genetics/coverage/main/CoveragePlotBase.java:92-94 | without null entries, series k belongs to entry k |
| CoveragePlotBase.MaxLimit | src/main/java/cz/vsb/genetics/coverage/main/CoveragePlotBase.java:176-184 | max(0, all limits): at least 0 and every limit, and either 0 or one of the limits |
| CoveragePlotBase.MinStart | src/main/java/cz/vsb/genetics/coverage/main/CoveragePlotBase.java:187-193 | min(Integer.MAX_VALUE, all starts): at most Integer.MAX_VALUE and every start, and either Integer.MAX_VALUE or one of the starts |
| CoveragePlotBase.MaxEnd | src/main/java/cz/vsb/genetics/coverage/main/CoveragePlotBase.java:188-196 | max(0, all ends): at least 0 and every end, and either 0 or one of the ends |
| CoveragePlotBase.GetCoverageLimit | src/main/java/cz/vsb/genetics/coverage/main/CoveragePlotBase.java:176-184 | the loop computes MaxLimit of the entries |
| CoveragePlotBase.SetupDomainAxisRange | src/main/java/cz/vsb/genetics/coverage/main/CoveragePlotBase.java:186-199 | the loop computes lower = MinStart and upper = MaxEnd of the entries |
| CoveragePlotBase.RangeAxis | src/main/java/cz/vsb/genetics/coverage/main/CoveragePlotBase.java:65-71 | a value axis [0, limit] is installed exactly when the limit is positive |
| CoveragePlotBase.SetupSerieColors | src/main/java/cz/vsb/genetics/coverage/main/CoveragePlotBase.java:201-217 | as written: nothing changes when some entry has no colour; otherwise one colour per entry is built in list order, and the supplier installed carries the default paint sequence |
| CoveragePlotBase.BuildColors | src/main/java/cz/vsb/genetics/coverage/main/CoveragePlotBase.java:206-208 | the colour array has one colour per entry, colour i being entry i's |
| CoveragePlotBase.SetupSerieColorsCorrected | src/main/java/cz/vsb/genetics/coverage/main/CoveragePlotBase.java:201-217 | corrected: the same all-or-nothing check; a fully coloured list installs a supplier painting series i with entry i's colour |
| CoveragePlotBase.ColorsDiscardedExample | src/main/java/cz/vsb/genetics/coverage/main/CoveragePlotBase.java:206-216 | one red entry: as written the default paint sequence is installed, where the corrected version paints it red |
| CoveragePlotBase.PlotCoverage | src/main/java/cz/vsb/genetics/coverage/main/CoveragePlotBase.java:55-73 | fails with a null dereference exactly when the list holds a null; otherwise the domain is (MinStart, MaxEnd) of the entries, series k is entry k sampled as createDataset does, the value axis is RangeAxis(MaxLimit), so [0, largest limit] when that is positive and none otherwise, and when every entry has a colour series i is painted with entry i's colour, the chart's own supplier being left otherwise |
| CoveragePlotBase.PlotLayoutExample | src/main/java/cz/vsb/genetics/coverage/main/CoveragePlotBase.java:55-73 | one red entry over 100..200 with limit 50 is laid out on the domain [100, 200], the value axis [0, 50] and painted red |
| Common.SplitTab | src/main/java/cz/vsb/genetics/coverage/main/LoReCCoverage.java:374 | a line without a tab splits into itself; no piece holds a tab |
| Common.SplitTabJoinTab | src/main/java/cz/vsb/genetics/coverage/main/LoReCCoverage.java:374 | splitting on tabs undoes joining with tabs, when the last field is not empty |
| Regions.ParseRegionLine | src/main/java/cz/vsb/genetics/coverage/main/LoReCCoverage.java:374-391 | no field: invalid; one field: that field is the region and no name is set; two or more fields: field 1 is the region and field 0 its name; a region that cannot be read is skipped |
| Regions.ParseSingleField | src/main/java/cz/vsb/genetics/coverage/main/LoReCCoverage.java:381 | a line without a tab is read as a region on its own |
| Regions.ParseNamedLine | src/main/java/cz/vsb/genetics/coverage/main/LoReCCoverage.java:381-389 | `name<TAB>region` gives the region named `name` |
| Regions.ParseExtraFields | src/main/java/cz/vsb/genetics/coverage/main/LoReCCoverage.java:381-389 | fields after the second are ignored |
| Regions.ParseTabsOnly | src/main/java/cz/vsb/genetics/coverage/main/LoReCCoverage.java:374-379 | a line of tabs only splits into no field and is rejected |
| Regions.GetChromosomeRegions | src/main/java/cz/vsb/genetics/coverage/main/LoReCCoverage.java:369-395 | the regions are those of the valid lines, in line order, at most one per line |
| Regions.ParsedRegionsAppend | src/main/java/cz/vsb/genetics/coverage/main/LoReCCoverage.java:372-392 | the regions of two runs of lines are the regions of each run, concatenated in order |
| CoverageMaps.HtsName | src/main/java/cz/vsb/genetics/coverage/main/LoReCCoverage.java:544-546 | every HTS series name starts with "hts_" |
| CoverageMaps.HtsNameOfPath | src/main/java/cz/vsb/genetics/coverage/main/LoReCCoverage.java:544-546 | dir/stem.ext gives "hts_" + stem |
| CoverageMaps.BaseNameIsLastPart | src/main/java/cz/vsb/genetics/coverage/main/LoReCCoverage.java:545 | the file name is the end of the path after its last '/' |
| CoverageMaps.ExtensionDotIsLast | src/main/java/cz/vsb/genetics/coverage/main/LoReCCoverage.java:545 | the extension removed starts at the last '.' that no separator follows, and nothing is removed when every '.' is followed by a separator |
| CoverageMaps.GetCoverageInfoHts | src/main/java/cz/vsb/genetics/coverage/main/LoReCCoverage.java:506-542 | the nested loop builds exactly the table HtsMap: empty without BAM files or regions, otherwise keyed by the coordinates of every region; the list under a key holds, BAM by BAM, one entry per region line with those coordinates |
| CoverageMaps.HtsListLength | src/main/java/cz/vsb/genetics/coverage/main/LoReCCoverage.java:513-535 | a list has |bams| entries for every region line with its coordinates, whatever the lines' names |
| CoverageMaps.HtsListOnce | src/main/java/cz/vsb/genetics/coverage/main/LoReCCoverage.java:513-535 | for coordinates listed once, the list has one entry per BAM file, entry k from BAM file k |
| CoverageMaps.HtsListEntries | src/main/java/cz/vsb/genetics/coverage/main/LoReCCoverage.java:530-535 | every entry of a region's list is that region's coverage from one of the BAM files |
| CoverageMaps.HtsMapEntries | src/main/java/cz/vsb/genetics/coverage/main/LoReCCoverage.java:530-533 | every entry carries the sampling size, the colour red and the name hts_<base name> of its BAM file |
| CoverageMaps.GetCoverageInfoOm | src/main/java/cz/vsb/genetics/coverage/main/LoReCCoverage.java:552-574 | empty when a path is blank or there is no region; otherwise one entry per distinct coordinates, with the sampling size, the colour blue and the name "OM" |
| CoverageMaps.MapsEmpty | src/main/java/cz/vsb/genetics/coverage/main/LoReCCoverage.java:508-509 | the HTS table is empty exactly without BAM files or regions; the OM table is empty exactly when a path is blank or there is no region |
| Statistics.StatisticsHeader | src/main/java/cz/vsb/genetics/coverage/main/LoReCCoverage.java:332-367 | the `+=` built header is the tab join of its column list followed by a newline |
| Statistics.HeaderLayout | src/main/java/cz/vsb/genetics/coverage/main/LoReCCoverage.java:332-367 | 3 + 8*[isOm] + 7*|bams| columns: contig_name, region, length; the 8 om_ columns exactly when isOm; then column j of BAM file k at 3 + 8*[isOm] + 7k + j |
| Statistics.BamColumnsLayout | src/main/java/cz/vsb/genetics/coverage/main/LoReCCoverage.java:351-362 | seven columns per BAM file, in BAM order: column 7k + j is column j of BAM file k |
| Statistics.HtsColumnsNamed | src/main/java/cz/vsb/genetics/coverage/main/LoReCCoverage.java:351-362 | column j of a BAM file is hts_<base name>, a doubled underscore and value name j (min, q1, median, q3, max, mean, stddev) |
| Statistics.StatisticsRow | src/main/java/cz/vsb/genetics/coverage/main/LoReCCoverage.java:306-325 | the `+=` built row is the tab join of its fields followed by a newline: name ("null" when absent), region, length, the seven OM values and the site count when there is OM data, then seven values per HTS entry in list order |
| Statistics.StatFieldsText | src/main/java/cz/vsb/genetics/coverage/main/LoReCCoverage.java:297 | the format "\t%d" seven times writes the seven values as tabbed fields |
| Statistics.RowFieldCount | src/main/java/cz/vsb/genetics/coverage/main/LoReCCoverage.java:306-325 | a row has 3 + 8*[OM data] + 7*|HTS entries| fields |
| Statistics.RegionRowFields | src/main/java/cz/vsb/genetics/coverage/main/LoReCCoverage.java:301-323 | with BAM files, a region's row has 3 + 8*[OM] + 7 * |bams| * (number of region lines with its coordinates) fields |
| Statistics.RowsMatchHeader | src/main/java/cz/vsb/genetics/coverage/main/LoReCCoverage.java:301-323 | when no other region line has the region's coordinates, its row has as many fields as the header has columns |
| Statistics.RowsWiderThanHeader | src/main/java/cz/vsb/genetics/coverage/main/LoReCCoverage.java:301-323 | with BAM files, when two region lines share coordinates (say `A<TAB>chr1:1-100` and `B<TAB>chr1:1-100`), the row of either has at least 7 * |bams| more fields than the header |
| Statistics.CalculateStatistics | src/main/java/cz/vsb/genetics/coverage/main/LoReCCoverage.java:275-330 | nothing is written without regions; without a BAM file only the header is written and the run fails on the null HTS table; otherwise the header followed by one row per region, in region order |
| Batch.CreateCoveragePlot | src/main/java/cz/vsb/genetics/coverage/main/LoReCCoverage.java:576-592 | LINE gives the step chart, SPLINE the spline chart, and every other type the histogram (each an if-and-only-if) |
| Batch.ChartOfOption | src/main/java/cz/vsb/genetics/coverage/main/LoReCCoverage.java:576-592 | a missing plot-type option gives the histogram; the lower-cased name of a type gives that type's chart |
| Batch.NormalizeOutputDir | src/main/java/cz/vsb/genetics/coverage/main/LoReCCoverage.java:444-445 | "./" when absent; the given directory, with '/' appended unless it ends with '/' or '\'; the result always ends with a separator |
| Batch.NormalizeOutputDirIdempotent | src/main/java/cz/vsb/genetics/coverage/main/LoReCCoverage.java:445 | normalising a normalised directory changes nothing |
| Batch.PlotName | src/main/java/cz/vsb/genetics/coverage/main/LoReCCoverage.java:473 | the sample name alone when the region name is blank, sampleName_regionName otherwise |
| Batch.ReplaceColons | src/main/java/cz/vsb/genetics/coverage/main/LoReCCoverage.java:475-477 | every ':' becomes '_' and every other character stays |
| Batch.ReplaceColonsClean | src/main/java/cz/vsb/genetics/coverage/main/LoReCCoverage.java:475-477 | no ':' is left; replacing again changes nothing; a text without ':' is unchanged |
| Batch.RegionPathsShape | src/main/java/cz/vsb/genetics/coverage/main/LoReCCoverage.java:474-477 | the HTS and OM paths are 4 and 3 characters longer than the single-image path (their infixes "_hts_" and "_om_" against "_"), the three are pairwise distinct, and each ends with "." + format |
| Batch.PlotTitle | src/main/java/cz/vsb/genetics/coverage/main/LoReCCoverage.java:478 | sample name, region name (nothing when null) and region, run together |
| Batch.DispatchAsWritten | src/main/java/cz/vsb/genetics/coverage/main/LoReCCoverage.java:484-499 | fails with a null dereference exactly in single-image mode without an HTS list; every call has the chosen chart, the title, "Position", "Coverage" and the format; single-image mode makes one call on the HTS list with the OM entry appended; separate mode makes one call per non-null source, none holding a null |
| Batch.SingleImageNull | src/main/java/cz/vsb/genetics/coverage/main/LoReCCoverage.java:488-490 | in single-image mode the one list plotted holds a null exactly when the region has no OM entry |
| Batch.DispatchEntries | src/main/java/cz/vsb/genetics/coverage/main/LoReCCoverage.java:488-497 | every entry handed on is one of the HTS entries or the OM entry |
| Batch.NullSafeDispatch | src/main/java/cz/vsb/genetics/coverage/main/LoReCCoverage.java:484-499 | corrected dispatch: no call holds a null; something is plotted exactly when the region has data; the single image holds the HTS entries followed by the OM entry; where the written code succeeds with an OM entry (or in separate mode) both make the same calls |
| Batch.NullSafeNeverFails | src/main/java/cz/vsb/genetics/coverage/main/LoReCCoverage.java:484-499 | with the corrected dispatch every plotCoverage call is made and none fails |
| Batch.SetCoverageLimits | src/main/java/cz/vsb/genetics/coverage/main/LoReCCoverage.java:467-468 | every HTS entry gets the HTS limit and nothing else in it changes |
| Batch.AttemptSucceeds | src/main/java/cz/vsb/genetics/coverage/main/LoReCCoverage.java:490-497 | a region's calls all run exactly when none is handed a null, and then every call is made |
| Batch.AttemptStops | src/main/java/cz/vsb/genetics/coverage/main/LoReCCoverage.java:490-497 | a failed attempt made the calls up to and including the first one holding a null |
| Batch.AttemptMadeGiven | src/main/java/cz/vsb/genetics/coverage/main/LoReCCoverage.java:490-497 | only the calls plotRegionCoverage asked for are made |
| Batch.RegionOutcomeCases | src/main/java/cz/vsb/genetics/coverage/main/LoReCCoverage.java:459-480 | a region without data is skipped; separate mode never fails and makes one call per source present; single-image mode with HTS data makes one call, which fails exactly without an OM entry; single-image mode without HTS data fails before any call |
| Batch.RegionEntriesLimited | src/main/java/cz/vsb/genetics/coverage/main/LoReCCoverage.java:467-471 | every entry plotted is one of the region's HTS entries with the HTS limit set, or its OM entry with the OM limit set |
| Batch.RegionFirstCallNull | src/main/java/cz/vsb/genetics/coverage/main/LoReCCoverage.java:488-490 | single image, HTS data, no OM entry: one call, on a list holding a null, and the run fails |
| Batch.SingleImageWithoutOmFails | src/main/java/cz/vsb/genetics/coverage/main/LoReCCoverage.java:447-490 | with BAM files, a region and no optical map, single-image mode fails on the first region after one call whose list holds a null |
| Batch.RunOverStops | src/main/java/cz/vsb/genetics/coverage/main/LoReCCoverage.java:455-481 | once a region has failed, later regions change nothing |
| Batch.PlotRegion | src/main/java/cz/vsb/genetics/coverage/main/LoReCCoverage.java:456-480 | the body of the loop for one region computes that region's outcome |
| Batch.PlotRegions | src/main/java/cz/vsb/genetics/coverage/main/LoReCCoverage.java:455-481 | the loop runs the regions in order, keeping every call made and stopping at the first failure |
| Batch.PlotCoverageMulti | src/main/java/cz/vsb/genetics/coverage/main/LoReCCoverage.java:432-482 | exit with missing arguments when both tables are empty; otherwise the region loop with the normalised output directory |

## Left out

- Command-line parsing, option defaults and `main` are not modelled. The options arrive as a
  `PlotOptions` value and a list of BAM paths. `System.exit` in `exitError` becomes the
  failure value `MissingCoverageArguments`.
- The list of BAM paths is never null. `main` builds it with `split(";")`, which would already
  have failed without a BAM option.
- File reading and writing are replaced by values:
  - the region file is a sequence of lines;
  - the statistics file is the sequence of strings written, in order;
  - images are the `plotCoverage` calls made.
- The coverage calculators (BAM single- and multi-threaded, Bionano) are function parameters.
  Their opening, closing, threads and mapping quality are not modelled. They are total
  functions: a calculator that throws, or returns null (dereferenced at
  LoReCCoverage.java:532 and 565), is not modelled.
- `ChromosomeRegion.valueOf`, `toString` and `getLength` are parameters. `ChromosomeRegion`
  itself is not part of this model. Its equality and hash are taken to use chromosome, start
  and end but not the name, and the tables are keyed that way.
- `CoverageStatistics` is a parameter returning seven integers. Its quartile and deviation
  conventions are not modelled.
- `SamplingType.of` and `ImageFormat` are not modelled. The sampling type and the format text
  are inputs.
- JFreeChart is not modelled: chart construction, fonts, renderers, image writing, and the
  sorting and duplicate handling of `XYSeries`. A series is the sequence of its `add` calls.
- The chart subclasses' `createChart` is not modelled. Only the chart kind is recorded.
- The single-region `plotCoverage` mode (LoReCCoverage.java:397-430) is not modelled. It
  resembles the per-region body of the loop, with three differences:
  - with no data it calls `exitError` (418-420), where the loop moves on to the next region;
  - its three output paths come from options that may be absent (398-400);
  - its title comes from an option defaulting to "" (401), not from `RegionPaths` and `PlotTitle`.
- Log messages are not modelled.
- `java.util.Random` is not modelled. The draws are an input sequence, each in `[0, b)`.
- Aliasing is not modelled. `CoverageInfo` is a value, and `setCoverageLimit` and
  `htsCoverage.add` compute new values. The Java code mutates the shared objects and the
  table's list. So when a region file lists the same coordinates twice, single-image mode
  appends the OM entry to the stored list again, and the second visit's list holds it twice.
  The model does not show that.
- SampleMean: sums and positions are unbounded integers. Java's 32-bit `sum` could wrap
  around on very deep or very long regions.
- PlotTypes.Lower: lower-cases ASCII letters only. `String.toLowerCase` maps the whole of
  Unicode, and it uses the default locale: under a Turkish locale "LINE" becomes "lıne"
  (dotless i), which parses to HISTOGRAM. The model follows a locale-neutral lower-casing.
- Common.IsWhitespace: ASCII only. `StringUtils.isBlank` uses `Character.isWhitespace`, which
  also accepts Unicode spaces such as U+2000 to U+2006, U+2028, U+2029 and U+3000, so an option
  of such characters only counts as blank in Java.
- PlotTypes.Trim: strips characters up to U+0020, as `String.trim` does.
- CoverageMaps.BaseName: splits on '/' only, as `java.io.File` does on Unix. Windows
  separators are not modelled.
- PlotCoverage: installs the colours through SetupSerieColorsCorrected, not the as-written
  SetupSerieColors. See the first finding.

## Findings

| source | as written | input that shows it | evidently intended | confidence | as-written member | corrected member |
|---|---|---|---|---|---|---|
| src/main/java/cz/vsb/genetics/coverage/main/CoveragePlotBase.java:206-216 | the colour array is built and then unused: the supplier installed gets DEFAULT_PAINT_SEQUENCE | any plot whose entries all have colours, e.g. one red HTS entry | series i is painted with entry i's colour (red for HTS, blue for OM) | high (not executed) | CoveragePlotBase.ColorsDiscardedExample | CoveragePlotBase.SetupSerieColorsCorrected |
| src/main/java/cz/vsb/genetics/coverage/main/LoReCCoverage.java:488-490 | single-image mode appends omCoverage to htsCoverage without checking either for null | plotting mode with single image, BAM files, a region file and no cmap/xmap inputs: the HTS list of the first region gets a null appended and plotCoverage fails on it. With OM only, htsCoverage.add fails outright. This needs a BAM option naming no file, such as `;`, since without `-bam` `main` already fails at `bam.split(";")` | plot the entries that exist in one image, and nothing for a source that is missing | high (not executed) | Batch.SingleImageWithoutOmFails | Batch.NullSafeNeverFails |
