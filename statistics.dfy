/** The statistics mode of the batch driver: a tab separated table with one header line and one
    line per region, giving seven summary values for the optical map entry (plus its site count)
    and for each alignment entry of the region. */
module Statistics {
  import opened Common
  import opened Coverage
  import opened Regions
  import opened CoverageMaps

  /** The seven values CoverageStatistics reports for one entry. How they are computed (quartile
      and deviation conventions) is not part of this model. */
  datatype Stats = Stats(min: int, q1: int, median: int, q3: int, max: int, mean: int, stddev: int)

  /** CoverageStatistics.calculateStatistics followed by its seven getters. */
  type StatsOf = CoverageInfo -> Stats

  /** The names of the seven values, in column order. */
  const StatNames: seq<string> := ["min", "q1", "median", "q3", "max", "mean", "stddev"]

  const FixedColumns: seq<string> := ["contig_name", "region", "length"]

  const OmColumns: seq<string> :=
    ["om_min", "om_q1", "om_median", "om_q3", "om_max", "om_mean", "om_stddev", "om_site_count"]

  /** The seven columns of one BAM file: getStatisticsHeader's `name + "_min"` and so on, with
      name the series name followed by '_'. */
  function HtsColumns(bam: string): (cols: seq<string>)
    ensures |cols| == 7
  {
    var name := HtsName(bam) + "_";
    seq(7, j requires 0 <= j < 7 => name + ("_" + StatNames[j]))
  }

  /** HtsColumns spelled out as getStatisticsHeader writes them. */
  lemma HtsColumnsSpelled(bam: string)
    ensures var name := HtsName(bam) + "_";
            HtsColumns(bam)
            == [name + "_min", name + "_q1", name + "_median", name + "_q3", name + "_max", name + "_mean",
                name + "_stddev"]
  {
    assert "_" + StatNames[0] == "_min";
    assert "_" + StatNames[1] == "_q1";
    assert "_" + StatNames[2] == "_median";
    assert "_" + StatNames[3] == "_q3";
    assert "_" + StatNames[4] == "_max";
    assert "_" + StatNames[5] == "_mean";
    assert "_" + StatNames[6] == "_stddev";
  }

  /** Column j of a BAM file is the series name, a doubled underscore and value name j. */
  lemma HtsColumnsNamed(bam: string)
    ensures forall j :: 0 <= j < 7 ==> HtsColumns(bam)[j] == HtsName(bam) + "__" + StatNames[j]
  {
    var n := HtsName(bam);
    forall j | 0 <= j < 7
      ensures HtsColumns(bam)[j] == n + "__" + StatNames[j]
    {
      DoubleUnderscore(n, StatNames[j]);
    }
  }

  lemma DoubleUnderscore(n: string, x: string)
    ensures n + "_" + ("_" + x) == n + "__" + x
  {
    assert "_" + "_" == "__";
    SeqAssoc(n + "_", "_", x);
    SeqAssoc(n, "_", "_");
  }

  /** The seven-wide groups of columns of each item in turn, f(xs[0]) + f(xs[1]) + ... */
  function Chunks<T>(xs: seq<T>, f: T -> seq<string>): seq<string>
    decreases |xs|
  {
    if |xs| == 0 then [] else Chunks(xs[..|xs| - 1], f) + f(xs[|xs| - 1])
  }

  lemma ChunksSnoc<T>(xs: seq<T>, f: T -> seq<string>, k: nat)
    requires k < |xs|
    ensures Chunks(xs[..k + 1], f) == Chunks(xs[..k], f) + f(xs[k])
  {
    assert xs[..k + 1][..k] == xs[..k];
  }

  lemma {:induction false} ChunksCount<T>(xs: seq<T>, f: T -> seq<string>)
    requires forall x :: |f(x)| == 7
    ensures |Chunks(xs, f)| == 7 * |xs|
    decreases |xs|
  {
    if |xs| > 0 { ChunksCount(xs[..|xs| - 1], f); }
  }

  /** Column j of item k is at 7 * k + j. */
  lemma {:induction false} ChunksAt<T>(xs: seq<T>, f: T -> seq<string>, k: nat, j: nat)
    requires forall x :: |f(x)| == 7
    requires k < |xs| && j < 7
    ensures 7 * k + j < |Chunks(xs, f)|
    ensures Chunks(xs, f)[7 * k + j] == f(xs[k])[j]
    decreases |xs|
  {
    var init := xs[..|xs| - 1];
    var front := Chunks(init, f);
    var last := f(xs[|xs| - 1]);
    ChunksCount(init, f);
    var at := 7 * k + j;
    if k < |init| {
      ChunksAt(init, f, k, j);
      assert init[k] == xs[k];
      assert (front + last)[at] == front[at];
    } else {
      assert at == |front| + j;
      assert (front + last)[at] == last[j];
    }
  }

  /** The columns of the BAM files, seven per file in BAM order. */
  function BamColumns(bams: seq<string>): seq<string>
  {
    Chunks(bams, HtsColumns)
  }

  /** The columns of the header line. */
  function HeaderColumns(isOm: bool, bams: seq<string>): seq<string>
  {
    FixedColumns + (if isOm then OmColumns else []) + BamColumns(bams)
  }

  /** getStatisticsHeader */
  method StatisticsHeader(isOm: bool, bams: seq<string>) returns (header: string)
    ensures header == JoinTab(HeaderColumns(isOm, bams)) + "\n"
  {
    header := "contig_name\t" + "region\t" + "length";
    FixedJoin();
    ghost var lead := FixedColumns;
    if isOm {
      header := header + (
        "\tom_min" + "\tom_q1" + "\tom_median" + "\tom_q3" + "\tom_max" + "\tom_mean" + "\tom_stddev"
        + "\tom_site_count");
      OmStep(lead);
      lead := FixedColumns + OmColumns;
    }
    assert lead + BamColumns(bams[..0]) == lead;
    for k := 0 to |bams|
      invariant header == JoinTab(lead + BamColumns(bams[..k]))
    {
      var name := HtsName(bams[k]) + "_";
      header := header + (
        "\t" + name + "_min" + "\t" + name + "_q1" + "\t" + name + "_median" + "\t" + name + "_q3"
        + "\t" + name + "_max" + "\t" + name + "_mean" + "\t" + name + "_stddev");
      BamStep(lead, bams, k);
    }
    assert bams[..|bams|] == bams;
    header := header + "\n";
  }

  lemma FixedJoin()
    ensures JoinTab(FixedColumns) == "contig_name\t" + "region\t" + "length"
  {
    assert FixedColumns[..2] == ["contig_name", "region"];
    assert FixedColumns[..2][..1] == ["contig_name"];
  }

  lemma OmStep(lead: seq<string>)
    requires lead == FixedColumns
    ensures JoinTab(lead) + (
              "\tom_min" + "\tom_q1" + "\tom_median" + "\tom_q3" + "\tom_max" + "\tom_mean" + "\tom_stddev"
              + "\tom_site_count")
            == JoinTab(lead + OmColumns)
  {
    OmText();
    TabbedOntoShift(JoinTab(lead), OmColumns);
    JoinTabOnto(lead, OmColumns);
  }

  lemma BamStep(lead: seq<string>, bams: seq<string>, k: nat)
    requires |lead| >= 1 && k < |bams|
    ensures var name := HtsName(bams[k]) + "_";
            JoinTab(lead + BamColumns(bams[..k])) + (
              "\t" + name + "_min" + "\t" + name + "_q1" + "\t" + name + "_median" + "\t" + name + "_q3"
              + "\t" + name + "_max" + "\t" + name + "_mean" + "\t" + name + "_stddev")
            == JoinTab(lead + BamColumns(bams[..k + 1]))
  {
    HtsText(bams[k]);
    BamJoinSnoc(lead, bams, k);
  }

  /** The header line with one more BAM file is the line so far followed by that file's columns. */
  lemma BamJoinSnoc(lead: seq<string>, bams: seq<string>, k: nat)
    requires |lead| >= 1 && k < |bams|
    ensures JoinTab(lead + BamColumns(bams[..k + 1]))
         == JoinTab(lead + BamColumns(bams[..k])) + TabbedOnto("", HtsColumns(bams[k]))
  {
    var front := BamColumns(bams[..k]);
    var cols := HtsColumns(bams[k]);
    ChunksSnoc(bams, HtsColumns, k);
    SeqAssoc(lead, front, cols);
    JoinTabAppend(lead + front, cols);
  }

  /** `"\t" + x` is the literal `lit`: one more field of a line written as literals. */
  lemma TabbedOntoSnocLiteral(fields: seq<string>, t: string, x: string, lit: string)
    requires TabbedOnto("", fields) == t
    requires "\t" + x == lit
    ensures TabbedOnto("", fields + [x]) == t + lit
  {
    TabbedOntoSnoc("", fields, x);
    Assoc(t, "\t", x);
  }

  /** Each optical map column with its tab is the literal getStatisticsHeader appends. */
  lemma OmLiterals()
    ensures "\t" + "om_min" == "\tom_min" && "\t" + "om_q1" == "\tom_q1"
    ensures "\t" + "om_median" == "\tom_median" && "\t" + "om_q3" == "\tom_q3"
    ensures "\t" + "om_max" == "\tom_max" && "\t" + "om_mean" == "\tom_mean"
    ensures "\t" + "om_stddev" == "\tom_stddev" && "\t" + "om_site_count" == "\tom_site_count"
  {
  }

  lemma OmText()
    ensures TabbedOnto("", OmColumns)
         == "\tom_min" + "\tom_q1" + "\tom_median" + "\tom_q3" + "\tom_max" + "\tom_mean" + "\tom_stddev"
            + "\tom_site_count"
  {
    var f0: seq<string> := [];
    var f1 := f0 + ["om_min"];
    var f2 := f1 + ["om_q1"];
    var f3 := f2 + ["om_median"];
    var f4 := f3 + ["om_q3"];
    var f5 := f4 + ["om_max"];
    var f6 := f5 + ["om_mean"];
    var f7 := f6 + ["om_stddev"];
    var f8 := f7 + ["om_site_count"];
    var t0 := "";
    OmLiterals();
    TabbedOntoSnocLiteral(f0, t0, "om_min", "\tom_min");
    var t1 := t0 + "\tom_min";
    TabbedOntoSnocLiteral(f1, t1, "om_q1", "\tom_q1");
    var t2 := t1 + "\tom_q1";
    TabbedOntoSnocLiteral(f2, t2, "om_median", "\tom_median");
    var t3 := t2 + "\tom_median";
    TabbedOntoSnocLiteral(f3, t3, "om_q3", "\tom_q3");
    var t4 := t3 + "\tom_q3";
    TabbedOntoSnocLiteral(f4, t4, "om_max", "\tom_max");
    var t5 := t4 + "\tom_max";
    TabbedOntoSnocLiteral(f5, t5, "om_mean", "\tom_mean");
    var t6 := t5 + "\tom_mean";
    TabbedOntoSnocLiteral(f6, t6, "om_stddev", "\tom_stddev");
    var t7 := t6 + "\tom_stddev";
    TabbedOntoSnocLiteral(f7, t7, "om_site_count", "\tom_site_count");
    assert t0 + "\tom_min" == "\tom_min";
    assert f8 == OmColumns;
  }

  /** The run a BAM file adds to the header, built field by field. */
  lemma HtsText(bam: string)
    ensures var name := HtsName(bam) + "_";
            TabbedOnto("", HtsColumns(bam))
            == "\t" + name + "_min" + "\t" + name + "_q1" + "\t" + name + "_median" + "\t" + name + "_q3"
               + "\t" + name + "_max" + "\t" + name + "_mean" + "\t" + name + "_stddev"
  {
    var n := HtsName(bam) + "_";
    var f0: seq<string> := [];
    var f1 := f0 + [n + "_min"];
    var f2 := f1 + [n + "_q1"];
    var f3 := f2 + [n + "_median"];
    var f4 := f3 + [n + "_q3"];
    var f5 := f4 + [n + "_max"];
    var f6 := f5 + [n + "_mean"];
    var f7 := f6 + [n + "_stddev"];
    TabbedOntoSnocPair("", f0, "", n, "_min");
    var t1 := "\t" + n + "_min";
    assert "" + "\t" + n + "_min" == t1;
    TabbedOntoSnocPair("", f1, t1, n, "_q1");
    var t2 := t1 + "\t" + n + "_q1";
    TabbedOntoSnocPair("", f2, t2, n, "_median");
    var t3 := t2 + "\t" + n + "_median";
    TabbedOntoSnocPair("", f3, t3, n, "_q3");
    var t4 := t3 + "\t" + n + "_q3";
    TabbedOntoSnocPair("", f4, t4, n, "_max");
    var t5 := t4 + "\t" + n + "_max";
    TabbedOntoSnocPair("", f5, t5, n, "_mean");
    var t6 := t5 + "\t" + n + "_mean";
    TabbedOntoSnocPair("", f6, t6, n, "_stddev");
    HtsColumnsSpelled(bam);
    assert f7 == HtsColumns(bam);
  }

  lemma BamColumnsCount(bams: seq<string>)
    ensures |BamColumns(bams)| == 7 * |bams|
  {
    ChunksCount(bams, HtsColumns);
  }

  /** Column j of BAM file k is at 7 * k + j. */
  lemma BamColumnsAt(bams: seq<string>, k: nat, j: nat)
    requires k < |bams| && j < 7
    ensures 7 * k + j < |BamColumns(bams)|
    ensures BamColumns(bams)[7 * k + j] == HtsColumns(bams[k])[j]
  {
    ChunksAt(bams, HtsColumns, k, j);
  }

  /** The header has 7 columns per BAM file, those of each file in BAM order (column j of
      file k being hts_<name>__<value j>, by HtsColumns). */
  lemma BamColumnsLayout(bams: seq<string>)
    ensures |BamColumns(bams)| == 7 * |bams|
    ensures forall k, j :: 0 <= k < |bams| && 0 <= j < 7 ==>
              BamColumns(bams)[7 * k + j] == HtsColumns(bams[k])[j]
  {
    BamColumnsCount(bams);
    forall k, j | 0 <= k < |bams| && 0 <= j < 7
      ensures BamColumns(bams)[7 * k + j] == HtsColumns(bams[k])[j]
    {
      BamColumnsAt(bams, k, j);
    }
  }

  /** Column by column: the fixed three, then the optical map columns exactly when there is
      optical map data, then per BAM file in order its seven hts_<name>__<value> columns. */
  lemma HeaderLayout(isOm: bool, bams: seq<string>)
    ensures var cols := HeaderColumns(isOm, bams);
            var om := if isOm then 8 else 0;
            |cols| == 3 + om + 7 * |bams|
            && cols[..3] == FixedColumns
            && (isOm ==> cols[3..11] == OmColumns)
            && forall k, j :: 0 <= k < |bams| && 0 <= j < 7 ==>
                 cols[3 + om + 7 * k + j] == HtsColumns(bams[k])[j]
  {
    var cols := HeaderColumns(isOm, bams);
    var om := if isOm then 8 else 0;
    var lead := FixedColumns + (if isOm then OmColumns else []);
    var tail := BamColumns(bams);
    assert cols == lead + tail;
    BamColumnsCount(bams);
    LeadColumns(isOm, lead);
    SliceOfAppend(lead, tail, 0, 3);
    if isOm {
      SliceOfAppend(lead, tail, 3, 11);
    }
    ColumnsAfterLead(lead, bams, 3 + om);
  }

  /** After `off` leading columns, column j of BAM file k is at off + 7 * k + j. */
  lemma {:induction false} ColumnsAfterLead(lead: seq<string>, bams: seq<string>, off: nat)
    requires off == |lead|
    ensures |lead + BamColumns(bams)| == off + 7 * |bams|
    ensures forall k, j :: 0 <= k < |bams| && 0 <= j < 7 ==>
              (lead + BamColumns(bams))[off + 7 * k + j] == HtsColumns(bams[k])[j]
  {
    BamColumnsCount(bams);
    forall k, j | 0 <= k < |bams| && 0 <= j < 7
      ensures (lead + BamColumns(bams))[off + 7 * k + j] == HtsColumns(bams[k])[j]
    {
      ColumnAfterLead(lead, bams, off, k, j);
    }
  }

  lemma {:induction false} ColumnAfterLead(lead: seq<string>, bams: seq<string>, off: nat, k: nat, j: nat)
    requires off == |lead| && k < |bams| && j < 7
    ensures off + 7 * k + j < |lead + BamColumns(bams)|
    ensures (lead + BamColumns(bams))[off + 7 * k + j] == HtsColumns(bams[k])[j]
  {
    BamColumnsAt(bams, k, j);
    IndexAfter(lead, BamColumns(bams), 7 * k + j);
  }

  lemma IndexAfter(a: seq<string>, b: seq<string>, i: nat)
    requires i < |b|
    ensures |a| + i < |a + b| && (a + b)[|a| + i] == b[i]
  {
  }

  lemma SliceOfAppend(a: seq<string>, b: seq<string>, i: nat, j: nat)
    requires i <= j <= |a|
    ensures (a + b)[i..j] == a[i..j]
  {
  }

  lemma LeadColumns(isOm: bool, lead: seq<string>)
    requires lead == FixedColumns + (if isOm then OmColumns else [])
    ensures |lead| == 3 + (if isOm then 8 else 0)
    ensures lead[..3] == FixedColumns
    ensures isOm ==> lead[3..11] == OmColumns
  {
  }

  // ---------------------------------------------------------------- rows

  function StatFields(st: Stats): (fields: seq<string>)
    ensures |fields| == 7
  {
    [IntToString(st.min), IntToString(st.q1), IntToString(st.median), IntToString(st.q3),
     IntToString(st.max), IntToString(st.mean), IntToString(st.stddev)]
  }

  /** The seven fields of one entry. */
  function EntryFields(statsOf: StatsOf): CoverageInfo -> seq<string>
  {
    x => StatFields(statsOf(x))
  }

  /** The fields of the HTS entries of a row, seven per entry in list order. */
  function HtsFields(hts: seq<CoverageInfo>, statsOf: StatsOf): seq<string>
  {
    Chunks(hts, EntryFields(statsOf))
  }

  /** The fields of the row of one region: the region name (null printed as "null"), the region,
      its length, the optical map values and site count when there is optical map data, and the
      values of each HTS entry of the region. */
  function RowFields(name: Option<string>, regionText: string, length: int,
                     om: Option<CoverageInfo>, hts: seq<CoverageInfo>, statsOf: StatsOf): seq<string>
  {
    [ShowNullable(name), regionText, IntToString(length)]
    + (if om.Some? then StatFields(statsOf(om.value)) + [IntToString(om.value.siteCount)] else [])
    + HtsFields(hts, statsOf)
  }

  /** `String.format(format, ...)` with format "\t%d\t%d\t%d\t%d\t%d\t%d\t%d" on the seven values. */
  function FormatStats(st: Stats): string
  {
    "\t" + IntToString(st.min) + "\t" + IntToString(st.q1) + "\t" + IntToString(st.median)
    + "\t" + IntToString(st.q3) + "\t" + IntToString(st.max) + "\t" + IntToString(st.mean)
    + "\t" + IntToString(st.stddev)
  }

  /** The row assembly of calculateStatistics for one region. */
  method StatisticsRow(name: Option<string>, regionText: string, length: int,
                       om: Option<CoverageInfo>, hts: seq<CoverageInfo>, statsOf: StatsOf)
    returns (out: string)
    ensures out == JoinTab(RowFields(name, regionText, length, om, hts, statsOf)) + "\n"
  {
    out := ShowNullable(name) + "\t" + regionText + "\t" + IntToString(length);
    ghost var lead := [ShowNullable(name), regionText, IntToString(length)];
    LeadFields(lead, out);
    if om.Some? {
      var stats := statsOf(om.value);
      out := out + FormatStats(stats);
      out := out + "\t" + IntToString(om.value.siteCount);
      OmFieldsStep(lead, stats, IntToString(om.value.siteCount));
      lead := lead + (StatFields(stats) + [IntToString(om.value.siteCount)]);
    }
    assert lead + HtsFields(hts[..0], statsOf) == lead;
    for k := 0 to |hts|
      invariant |lead| >= 1
      invariant out == JoinTab(lead + HtsFields(hts[..k], statsOf))
    {
      var stats := statsOf(hts[k]);
      out := out + FormatStats(stats);
      HtsFieldsStep(lead, hts, k, statsOf);
    }
    assert hts[..|hts|] == hts;
    RowFieldsParts(name, regionText, length, om, hts, statsOf, lead);
    out := out + "\n";
  }

  lemma LeadFields(lead: seq<string>, out: string)
    requires |lead| == 3 && out == lead[0] + "\t" + lead[1] + "\t" + lead[2]
    ensures out == JoinTab(lead)
  {
    var two := lead[..2];
    assert two[..1] == [lead[0]];
    assert JoinTab(two) == lead[0] + "\t" + lead[1];
    assert JoinTab(lead) == JoinTab(two) + "\t" + lead[2];
  }

  lemma OmFieldsStep(lead: seq<string>, stats: Stats, sites: string)
    requires |lead| >= 1
    ensures JoinTab(lead) + FormatStats(stats) + "\t" + sites == JoinTab(lead + (StatFields(stats) + [sites]))
  {
    StatFieldsText(stats);
    TabbedOntoShift(JoinTab(lead), StatFields(stats));
    JoinTabOnto(lead, StatFields(stats));
    JoinTabSnoc(lead + StatFields(stats), sites);
    SeqAssoc(lead, StatFields(stats), [sites]);
  }

  lemma HtsFieldsStep(lead: seq<string>, hts: seq<CoverageInfo>, k: nat, statsOf: StatsOf)
    requires |lead| >= 1 && k < |hts|
    ensures JoinTab(lead + HtsFields(hts[..k], statsOf)) + FormatStats(statsOf(hts[k]))
            == JoinTab(lead + HtsFields(hts[..k + 1], statsOf))
  {
    var front := HtsFields(hts[..k], statsOf);
    var fields := StatFields(statsOf(hts[k]));
    ChunksSnoc(hts, EntryFields(statsOf), k);
    assert EntryFields(statsOf)(hts[k]) == fields;
    StatFieldsText(statsOf(hts[k]));
    SeqAssoc(lead, front, fields);
    JoinTabAppend(lead + front, fields);
  }

  lemma RowFieldsParts(name: Option<string>, regionText: string, length: int,
                       om: Option<CoverageInfo>, hts: seq<CoverageInfo>, statsOf: StatsOf, lead: seq<string>)
    requires lead == [ShowNullable(name), regionText, IntToString(length)]
                     + (if om.Some? then StatFields(statsOf(om.value)) + [IntToString(om.value.siteCount)] else [])
    ensures RowFields(name, regionText, length, om, hts, statsOf) == lead + HtsFields(hts, statsOf)
  {
  }

  lemma StatFieldsText(st: Stats)
    ensures TabbedOnto("", StatFields(st)) == FormatStats(st)
  {
    var f0: seq<string> := [];
    var f1 := f0 + [IntToString(st.min)];
    var f2 := f1 + [IntToString(st.q1)];
    var f3 := f2 + [IntToString(st.median)];
    var f4 := f3 + [IntToString(st.q3)];
    var f5 := f4 + [IntToString(st.max)];
    var f6 := f5 + [IntToString(st.mean)];
    var f7 := f6 + [IntToString(st.stddev)];
    TabbedOntoSnoc("", f0, IntToString(st.min));
    assert "" + "\t" == "\t";
    TabbedOntoSnoc("", f1, IntToString(st.q1));
    TabbedOntoSnoc("", f2, IntToString(st.median));
    TabbedOntoSnoc("", f3, IntToString(st.q3));
    TabbedOntoSnoc("", f4, IntToString(st.max));
    TabbedOntoSnoc("", f5, IntToString(st.mean));
    TabbedOntoSnoc("", f6, IntToString(st.stddev));
    assert f7 == StatFields(st);
  }

  lemma HtsFieldsCount(hts: seq<CoverageInfo>, statsOf: StatsOf)
    ensures |HtsFields(hts, statsOf)| == 7 * |hts|
  {
    ChunksCount(hts, EntryFields(statsOf));
  }

  /** A row has 3 fields, 8 more with optical map data, and 7 per HTS entry. */
  lemma RowFieldCount(name: Option<string>, regionText: string, length: int,
                      om: Option<CoverageInfo>, hts: seq<CoverageInfo>, statsOf: StatsOf)
    ensures |RowFields(name, regionText, length, om, hts, statsOf)| == 3 + (if om.Some? then 8 else 0) + 7 * |hts|
  {
    HtsFieldsCount(hts, statsOf);
  }

  // ---------------------------------------------------------------- the whole table

  /** What calculateStatistics writes: nothing at all without regions; otherwise the lines
      written, and the failure that ended the run early, if any. */
  datatype StatisticsRun = StatisticsRun(written: Option<seq<string>>, failure: Option<Error>)

  /** The row of region r of the table, the entries sampled with size 0. */
  function RegionRow(r: Region, regions: seq<Region>, bams: seq<string>, isOm: bool,
                     htsOf: HtsCalculator, omOf: OmCalculator, statsOf: StatsOf,
                     show: Region -> string, length: Region -> int): string
  {
    JoinTab(RowFields(r.name, show(r), length(r),
                      if isOm then Some(OmEntry(Key(r), 0, omOf)) else None,
                      if |bams| > 0 then HtsList(bams, regions, Key(r), 0, htsOf) else [],
                      statsOf)) + "\n"
  }

  /** calculateStatistics over the lines of the region file. The HTS table is built when there
      is a BAM file, the OM table when all three optical map paths are given. The progress
      message of each row reads the size of the HTS table, so a run without BAM files writes
      the header and then fails with a null dereference. */
  method CalculateStatistics(lines: seq<string>, valueOf: RegionParser, bams: seq<string>,
                             cmapRef: Option<string>, cmapQry: Option<string>, xmap: Option<string>,
                             htsOf: HtsCalculator, omOf: OmCalculator, statsOf: StatsOf,
                             show: Region -> string, length: Region -> int)
    returns (run: StatisticsRun)
    ensures var regions := ParsedRegions(lines, valueOf);
            var isOm := OmConfigured(cmapRef, cmapQry, xmap);
            var header := JoinTab(HeaderColumns(isOm, bams)) + "\n";
            (|regions| == 0 ==> run == StatisticsRun(None, None))
            && (|regions| > 0 && |bams| == 0 ==> run == StatisticsRun(Some([header]), Some(NullPointer)))
            && (|regions| > 0 && |bams| > 0 ==>
                  run.failure.None? && run.written.Some?
                  && |run.written.value| == |regions| + 1
                  && run.written.value[0] == header
                  && forall i :: 0 <= i < |regions| ==>
                       run.written.value[i + 1]
                       == RegionRow(regions[i], regions, bams, isOm, htsOf, omOf, statsOf, show, length))
  {
    var regions := GetChromosomeRegions(lines, valueOf);
    if |regions| == 0 {
      return StatisticsRun(None, None);
    }
    var coverageInfosHts: Option<map<RegionKey, seq<CoverageInfo>>> := None;
    var coverageInfosOm: Option<map<RegionKey, CoverageInfo>> := None;
    if |bams| > 0 {
      var m := GetCoverageInfoHts(bams, regions, 0, htsOf);
      coverageInfosHts := Some(m);
    }
    if !IsBlank(cmapRef) && !IsBlank(cmapQry) && !IsBlank(xmap) {
      var m := GetCoverageInfoOm(cmapRef, cmapQry, xmap, regions, 0, omOf);
      coverageInfosOm := Some(m);
    }
    ghost var isOm := OmConfigured(cmapRef, cmapQry, xmap);
    assert coverageInfosOm.Some? == isOm;
    var header := StatisticsHeader(coverageInfosOm.Some?, bams);
    var written := [header];
    for i := 0 to |regions|
      invariant |written| == i + 1 && written[0] == header
      invariant coverageInfosHts.None? ==> i == 0
      invariant forall k :: 0 <= k < i ==>
                  written[k + 1] == RegionRow(regions[k], regions, bams, isOm, htsOf, omOf, statsOf, show, length)
    {
      var region := regions[i];
      if coverageInfosHts.None? {
        assert written == [header];
        return StatisticsRun(Some(written), Some(NullPointer));
      }
      var om: Option<CoverageInfo> := None;
      if coverageInfosOm.Some? {
        OmLookup(cmapRef, cmapQry, xmap, regions, i, omOf);
        om := Some(coverageInfosOm.value[Key(region)]);
      }
      var hts: seq<CoverageInfo> := [];
      if coverageInfosHts.Some? {
        HtsLookup(bams, regions, i, htsOf);
        hts := coverageInfosHts.value[Key(region)];
      }
      var out := StatisticsRow(region.name, show(region), length(region), om, hts, statsOf);
      RegionRowIs(out, region, regions, bams, isOm, htsOf, omOf, statsOf, show, length, om, hts);
      RegionRowsSnoc(written, out, i, regions, bams, isOm, htsOf, omOf, statsOf, show, length);
      written := written + [out];
    }
    return StatisticsRun(Some(written), None);
  }

  /** The row written for a region, from the entries looked up under its coordinates. */
  lemma RegionRowIs(out: string, r: Region, regions: seq<Region>, bams: seq<string>, isOm: bool,
                    htsOf: HtsCalculator, omOf: OmCalculator, statsOf: StatsOf,
                    show: Region -> string, length: Region -> int,
                    om: Option<CoverageInfo>, hts: seq<CoverageInfo>)
    requires om == if isOm then Some(OmEntry(Key(r), 0, omOf)) else None
    requires hts == if |bams| > 0 then HtsList(bams, regions, Key(r), 0, htsOf) else []
    requires out == JoinTab(RowFields(r.name, show(r), length(r), om, hts, statsOf)) + "\n"
    ensures out == RegionRow(r, regions, bams, isOm, htsOf, omOf, statsOf, show, length)
  {
  }

  lemma RegionRowsSnoc(written: seq<string>, out: string, i: nat, regions: seq<Region>, bams: seq<string>,
                       isOm: bool, htsOf: HtsCalculator, omOf: OmCalculator, statsOf: StatsOf,
                       show: Region -> string, length: Region -> int)
    requires |written| == i + 1 && i < |regions|
    requires forall k :: 0 <= k < i ==>
               written[k + 1] == RegionRow(regions[k], regions, bams, isOm, htsOf, omOf, statsOf, show, length)
    requires out == RegionRow(regions[i], regions, bams, isOm, htsOf, omOf, statsOf, show, length)
    ensures forall k :: 0 <= k < i + 1 ==>
              (written + [out])[k + 1] == RegionRow(regions[k], regions, bams, isOm, htsOf, omOf, statsOf, show, length)
  {
    RowsSnoc(written, out, i, regions, r => RegionRow(r, regions, bams, isOm, htsOf, omOf, statsOf, show, length));
  }

  /** One more row keeps the written lines in step with the rows of the regions so far. */
  lemma RowsSnoc<T>(written: seq<string>, out: string, i: nat, xs: seq<T>, row: T -> string)
    requires |written| == i + 1 && i < |xs|
    requires forall k :: 0 <= k < i ==> written[k + 1] == row(xs[k])
    requires out == row(xs[i])
    ensures forall k :: 0 <= k < i + 1 ==> (written + [out])[k + 1] == row(xs[k])
  {
  }

  lemma OmLookup(cmapRef: Option<string>, cmapQry: Option<string>, xmap: Option<string>,
                 regions: seq<Region>, i: nat, omOf: OmCalculator)
    requires OmConfigured(cmapRef, cmapQry, xmap) && i < |regions|
    ensures Key(regions[i]) in OmMap(cmapRef, cmapQry, xmap, regions, 0, omOf)
    ensures OmMap(cmapRef, cmapQry, xmap, regions, 0, omOf)[Key(regions[i])] == OmEntry(Key(regions[i]), 0, omOf)
  {
    KeyListed(regions, i);
  }

  lemma HtsLookup(bams: seq<string>, regions: seq<Region>, i: nat, htsOf: HtsCalculator)
    requires |bams| > 0 && i < |regions|
    ensures Key(regions[i]) in HtsMap(bams, regions, 0, htsOf)
    ensures HtsMap(bams, regions, 0, htsOf)[Key(regions[i])] == HtsList(bams, regions, Key(regions[i]), 0, htsOf)
  {
    KeyListed(regions, i);
  }

  /** The fields of region r's row: one block of seven per BAM file for every region line
      sharing r's coordinates, whatever their names. */
  lemma RegionRowFields(regions: seq<Region>, bams: seq<string>, isOm: bool, r: Region,
                        htsOf: HtsCalculator, omOf: OmCalculator, statsOf: StatsOf,
                        show: Region -> string, length: Region -> int)
    requires |bams| > 0
    ensures |RowFields(r.name, show(r), length(r),
                       if isOm then Some(OmEntry(Key(r), 0, omOf)) else None,
                       HtsList(bams, regions, Key(r), 0, htsOf),
                       statsOf)|
            == 3 + (if isOm then 8 else 0) + 7 * (|bams| * Count(regions, Key(r)))
  {
    HtsListLength(bams, regions, Key(r), 0, htsOf);
    RowFieldCount(r.name, show(r), length(r), if isOm then Some(OmEntry(Key(r), 0, omOf)) else None,
                  HtsList(bams, regions, Key(r), 0, htsOf), statsOf);
  }

  /** With r's coordinates listed once, its row has exactly as many fields as the header. */
  lemma RowsMatchHeader(regions: seq<Region>, bams: seq<string>, isOm: bool, r: Region,
                        htsOf: HtsCalculator, omOf: OmCalculator, statsOf: StatsOf,
                        show: Region -> string, length: Region -> int)
    requires Count(regions, Key(r)) == 1
    ensures |RowFields(r.name, show(r), length(r),
                       if isOm then Some(OmEntry(Key(r), 0, omOf)) else None,
                       if |bams| > 0 then HtsList(bams, regions, Key(r), 0, htsOf) else [],
                       statsOf)|
            == |HeaderColumns(isOm, bams)|
  {
    HtsListOnce(bams, regions, Key(r), 0, htsOf);
    RowFieldCount(r.name, show(r), length(r), if isOm then Some(OmEntry(Key(r), 0, omOf)) else None,
                  if |bams| > 0 then HtsList(bams, regions, Key(r), 0, htsOf) else [], statsOf);
    HeaderLayout(isOm, bams);
  }

  /** Two region lines with the same coordinates share one list, so with a BAM file the row
      of either is longer than the header: it holds the statistics of every BAM twice or more. */
  lemma RowsWiderThanHeader(regions: seq<Region>, bams: seq<string>, isOm: bool, r: Region,
                            htsOf: HtsCalculator, omOf: OmCalculator, statsOf: StatsOf,
                            show: Region -> string, length: Region -> int)
    requires |bams| > 0 && Count(regions, Key(r)) >= 2
    ensures |RowFields(r.name, show(r), length(r),
                       if isOm then Some(OmEntry(Key(r), 0, omOf)) else None,
                       HtsList(bams, regions, Key(r), 0, htsOf),
                       statsOf)|
            >= |HeaderColumns(isOm, bams)| + 7 * |bams|
  {
    RegionRowFields(regions, bams, isOm, r, htsOf, omOf, statsOf, show, length);
    HeaderCount(isOm, bams);
    AtLeastTwice(|bams|, Count(regions, Key(r)));
  }

  lemma HeaderCount(isOm: bool, bams: seq<string>)
    ensures |HeaderColumns(isOm, bams)| == 3 + (if isOm then 8 else 0) + 7 * |bams|
  {
    HeaderLayout(isOm, bams);
  }

  lemma AtLeastTwice(n: nat, c: nat)
    requires c >= 2
    ensures n * c >= 2 * n
  {
    assert n * c == 2 * n + n * (c - 2);
  }
}
