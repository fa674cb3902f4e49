/** The region file of the batch driver: one region per line, either `region` or
    `name<TAB>region`, read in file order. */
module Regions {
  import opened Common

  /** A ChromosomeRegion: its coordinates and the optional name the region file gives it. */
  datatype Region = Region(chromosome: string, start: int, end: int, name: Option<string>)

  /** The identity of a ChromosomeRegion as a hash map key: its coordinates. The name is not
      part of it, so two lines naming the same coordinates share one key. */
  datatype RegionKey = RegionKey(chromosome: string, start: int, end: int)

  function Key(r: Region): RegionKey
  {
    RegionKey(r.chromosome, r.start, r.end)
  }

  /** ChromosomeRegion.valueOf: null for text it cannot read. Its format is not part of this
      model, so it is a parameter. */
  type RegionParser = string -> Option<Region>

  /** The handling of one line of getChromosomeRegions: split on tabs; no field at all is an
      invalid line; one field is the region, two or more are name then region (the rest are
      ignored); a region that cannot be read is skipped; the name is set from field 0. */
  function ParseRegionLine(line: string, valueOf: RegionParser): (r: Option<Region>)
    ensures var values := SplitTab(line);
            |values| == 0 ==> r.None?
    ensures var values := SplitTab(line);
            |values| == 1 ==> r == valueOf(values[0])
    ensures var values := SplitTab(line);
            |values| >= 2 ==>
              (valueOf(values[1]).None? ==> r.None?)
              && (valueOf(values[1]).Some? ==> r == Some(valueOf(values[1]).value.(name := Some(values[0]))))
  {
    var values := SplitTab(line);
    if |values| < 1 then None
    else
      var region := if |values| == 1 then valueOf(values[0]) else valueOf(values[1]);
      if region.None? then None
      else if |values| > 1 then Some(region.value.(name := Some(values[0])))
      else region
  }

  /** The regions of a file, in line order, invalid lines left out. */
  function ParsedRegions(lines: seq<string>, valueOf: RegionParser): seq<Region>
    decreases |lines|
  {
    if |lines| == 0 then []
    else
      var init := ParsedRegions(lines[..|lines| - 1], valueOf);
      match ParseRegionLine(lines[|lines| - 1], valueOf)
      case None => init
      case Some(region) => init + [region]
  }

  /** getChromosomeRegions over the lines of the file. */
  method GetChromosomeRegions(lines: seq<string>, valueOf: RegionParser) returns (regions: seq<Region>)
    ensures regions == ParsedRegions(lines, valueOf)
    ensures |regions| <= |lines|
  {
    regions := [];
    var i := 0;
    while i < |lines|
      invariant 0 <= i <= |lines|
      invariant regions == ParsedRegions(lines[..i], valueOf)
      invariant |regions| <= i
    {
      assert lines[..i + 1][..i] == lines[..i];
      var region := ParseRegionLine(lines[i], valueOf);
      if region.Some? {
        regions := regions + [region.value];
      }
      i := i + 1;
    }
    assert lines[..|lines|] == lines;
  }

  /** Reading two parts of a file one after the other gives the regions of both in order:
      lines are handled independently and the order of the kept ones is preserved. */
  lemma {:induction false} ParsedRegionsAppend(a: seq<string>, b: seq<string>, valueOf: RegionParser)
    ensures ParsedRegions(a + b, valueOf) == ParsedRegions(a, valueOf) + ParsedRegions(b, valueOf)
    decreases |b|
  {
    if |b| == 0 {
      assert a + b == a;
    } else {
      var b0 := b[..|b| - 1];
      assert (a + b)[..|a + b| - 1] == a + b0;
      assert (a + b)[|a + b| - 1] == b[|b| - 1];
      ParsedRegionsAppend(a, b0, valueOf);
    }
  }

  /** A line without a tab is the region text itself, its name left as valueOf gives it. */
  lemma ParseSingleField(line: string, valueOf: RegionParser)
    requires NoTab(line)
    ensures ParseRegionLine(line, valueOf) == valueOf(line)
  {
  }

  /** `name<TAB>region` gives the region named `name`. */
  lemma ParseNamedLine(name: string, text: string, valueOf: RegionParser)
    requires NoTab(name) && NoTab(text) && text != ""
    requires valueOf(text).Some?
    ensures ParseRegionLine(name + "\t" + text, valueOf) == Some(valueOf(text).value.(name := Some(name)))
  {
    var fields := [name, text];
    assert JoinTab(fields) == JoinTab(fields[..1]) + "\t" + fields[1];
    assert fields[..1] == [name];
    SplitTabJoinTab(fields);
  }

  /** Fields after the second are ignored. */
  lemma ParseExtraFields(fields: seq<string>, valueOf: RegionParser)
    requires |fields| >= 2
    requires forall i :: 0 <= i < |fields| ==> NoTab(fields[i])
    requires fields[|fields| - 1] != ""
    ensures ParseRegionLine(JoinTab(fields), valueOf)
         == if valueOf(fields[1]).None? then None else Some(valueOf(fields[1]).value.(name := Some(fields[0])))
  {
    SplitTabJoinTab(fields);
  }

  /** k >= 1 tabs. */
  function Tabs(k: nat): (s: string)
    ensures |s| == k
    ensures forall i :: 0 <= i < k ==> s[i] == '\t'
  {
    seq(k, i => '\t')
  }

  lemma {:induction false} SplitAllTabs(k: nat)
    ensures |SplitAll(Tabs(k))| == k + 1
    ensures forall i :: 0 <= i < k + 1 ==> SplitAll(Tabs(k))[i] == ""
    decreases k
  {
    if k > 0 {
      assert Tabs(k)[1..] == Tabs(k - 1);
      SplitAllTabs(k - 1);
    }
  }

  lemma {:induction false} StripAllEmpty(parts: seq<string>)
    requires forall i :: 0 <= i < |parts| ==> parts[i] == ""
    ensures StripTrailingEmpty(parts) == []
    decreases |parts|
  {
    if |parts| > 0 {
      StripAllEmpty(parts[..|parts| - 1]);
    }
  }

  /** A line of tabs only splits into no field at all and is skipped as invalid. */
  lemma ParseTabsOnly(k: nat, valueOf: RegionParser)
    requires k >= 1
    ensures SplitTab(Tabs(k)) == []
    ensures ParseRegionLine(Tabs(k), valueOf).None?
  {
    assert Tabs(k)[0] == '\t';
    SplitAllTabs(k);
    StripAllEmpty(SplitAll(Tabs(k)));
  }
}
