/** `Summary::summarize` of src/summary.rs: stocks grouped by sector name,
    then by industry name within each sector, with size counters, industries
    and sectors sorted by size, largest first. */
module Summaries {
  import opened Domain
  import opened Seqs

  datatype SummaryIndustry = SummaryIndustry(name: string, url: string, size: nat, tickers: seq<Ticker>)
  datatype SummarySector = SummarySector(name: string, url: string, size: nat, industries: seq<SummaryIndustry>)
  datatype Summary = Summary(size: nat, sectors: seq<SummarySector>)

  function SectorName(s: Stock): string { s.sector.name }
  function IndustryName(s: Stock): string { s.industry.name }
  function TickerOf(s: Stock): Ticker { Ticker(s.exchange, s.ticker) }

  function IndustrySize(i: SummaryIndustry): int { i.size }
  function SectorSize(s: SummarySector): int { s.size }
  function IndustryLabel(i: SummaryIndustry): string { i.name }
  function SectorLabel(s: SummarySector): string { s.name }
  function IndustryTickers(i: SummaryIndustry): seq<Ticker> { i.tickers }

  /** Every ticker of a sector, industry by industry. */
  function SectorTickers(s: SummarySector): seq<Ticker> { FlatMap(s.industries, IndustryTickers) }

  /** Every ticker of a summary, sector by sector. */
  function AllTickers(ss: seq<SummarySector>): seq<Ticker> { FlatMap(ss, SectorTickers) }

  function SumIndustrySizes(inds: seq<SummaryIndustry>): int {
    if inds == [] then 0 else inds[0].size + SumIndustrySizes(inds[1..])
  }

  function SumSectorSizes(secs: seq<SummarySector>): int {
    if secs == [] then 0 else secs[0].size + SumSectorSizes(secs[1..])
  }

  /** `ind` summarises the stocks of `members` in industry `ind.name`: the url
      of the first of them, their count, their tickers in input order. */
  predicate IsIndustrySummary(members: seq<Stock>, ind: SummaryIndustry) {
    var group := Filter(members, IndustryName, ind.name);
    && group != []
    && ind.url == group[0].industry.url
    && ind.size == |group|
    && ind.tickers == Map(group, TickerOf)
  }

  /** `sec` summarises the stocks of sector `sec.name`: the url of the first
      of them, their count, which is also the sum of its industry sizes, and
      one industry summary per industry name, largest first. */
  predicate IsSectorSummary(stocks: seq<Stock>, sec: SummarySector) {
    var members := Filter(stocks, SectorName, sec.name);
    && members != []
    && sec.url == members[0].sector.url
    && sec.size == |members|
    && sec.size == SumIndustrySizes(sec.industries)
    && SortedDesc(sec.industries, IndustrySize)
    && Distinct(Map(sec.industries, IndustryLabel))
    && (forall ind :: ind in sec.industries ==> IsIndustrySummary(members, ind))
    && multiset(SectorTickers(sec)) == multiset(Map(members, TickerOf))
  }

  /** With each size the length of its ticker list, the sizes add up to the ticker count. */
  lemma {:induction false} IndustrySizesCount(inds: seq<SummaryIndustry>)
    requires forall ind :: ind in inds ==> ind.size == |ind.tickers|
    ensures SumIndustrySizes(inds) == |FlatMap(inds, IndustryTickers)|
  {
    if inds != [] {
      IndustrySizesCount(inds[1..]);
    }
  }

  lemma {:induction false} SectorSizesCount(secs: seq<SummarySector>)
    requires forall sec :: sec in secs ==> sec.size == |SectorTickers(sec)|
    ensures SumSectorSizes(secs) == |AllTickers(secs)|
  {
    if secs != [] {
      SectorSizesCount(secs[1..]);
    }
  }

  /** Sorting keeps the summaries and makes their names no less distinct. */
  lemma SortKeeps<T>(s: seq<T>, sorted: seq<T>, name: T -> string, tickers: T -> seq<Ticker>)
    requires multiset(sorted) == multiset(s) && Distinct(Map(s, name))
    ensures Distinct(Map(sorted, name))
    ensures forall x :: x in sorted <==> x in s
    ensures multiset(FlatMap(sorted, tickers)) == multiset(FlatMap(s, tickers))
  {
    MapPermutation(s, sorted, name);
    DistinctPermutation(Map(s, name), Map(sorted, name));
    FlatMapPermutation(s, sorted, tickers);
    forall x ensures x in sorted <==> x in s {
      assert x in sorted <==> x in multiset(sorted);
    }
  }

  /** The summary of one industry group (src/summary.rs:58-69). */
  function IndustryOf(name: string, group: seq<Stock>): SummaryIndustry
    requires group != []
  {
    SummaryIndustry(name, group[0].industry.url, |group|, Map(group, TickerOf))
  }

  /** One industry summary per industry name, in order of first appearance. */
  function IndustriesOf(members: seq<Stock>): (r: seq<SummaryIndustry>)
    ensures |r| == |Keys(members, IndustryName)|
  {
    var keys := Keys(members, IndustryName);
    var groups: seq<seq<Stock>> := GroupBy(members, IndustryName);
    GroupByShape(members, IndustryName);
    seq(|keys|, k requires 0 <= k < |keys| => IndustryOf(keys[k], groups[k]))
  }

  /** The summary of one sector group, industries sorted by size. */
  function SectorOf(name: string, members: seq<Stock>): SummarySector
    requires members != []
  {
    SummarySector(name, members[0].sector.url, |members|, SortDesc(IndustriesOf(members), IndustrySize))
  }

  /** The sector summaries of a list of named groups, in order. */
  function SectorsFor(keys: seq<string>, groups: seq<seq<Stock>>): (r: seq<SummarySector>)
    requires |keys| == |groups| && forall k :: 0 <= k < |groups| ==> groups[k] != []
    ensures |r| == |keys|
  {
    if keys == [] then []
    else SectorsFor(keys[..|keys| - 1], groups[..|groups| - 1]) + [SectorOf(keys[|keys| - 1], groups[|groups| - 1])]
  }

  lemma {:induction false} SectorsForAt(keys: seq<string>, groups: seq<seq<Stock>>, k: nat)
    requires |keys| == |groups| && forall k :: 0 <= k < |groups| ==> groups[k] != []
    requires k < |keys|
    ensures SectorsFor(keys, groups)[k] == SectorOf(keys[k], groups[k])
  {
    if k < |keys| - 1 {
      SectorsForAt(keys[..|keys| - 1], groups[..|groups| - 1], k);
    }
  }

  lemma SectorsForSnoc(keys: seq<string>, groups: seq<seq<Stock>>, g: nat)
    requires |keys| == |groups| && forall k :: 0 <= k < |groups| ==> groups[k] != []
    requires g < |keys|
    ensures SectorsFor(keys[..g + 1], groups[..g + 1]) == SectorsFor(keys[..g], groups[..g]) + [SectorOf(keys[g], groups[g])]
  {
    assert keys[..g + 1][..g] == keys[..g] && groups[..g + 1][..g] == groups[..g];
  }

  /** One sector summary per sector name, in order of first appearance. */
  function SectorsOf(stocks: seq<Stock>): (r: seq<SummarySector>)
    ensures |r| == |Keys(stocks, SectorName)|
  {
    GroupByShape(stocks, SectorName);
    SectorsFor(Keys(stocks, SectorName), GroupBy(stocks, SectorName))
  }

  /** Flat-mapping summaries whose tickers are those of their groups gives
      the tickers of the concatenated groups. */
  lemma {:induction false} IndustryTickersOfGroups(inds: seq<SummaryIndustry>, groups: seq<seq<Stock>>)
    requires |inds| == |groups|
    requires forall k :: 0 <= k < |inds| ==> inds[k].tickers == Map(groups[k], TickerOf)
    ensures FlatMap(inds, IndustryTickers) == Map(Concat(groups), TickerOf)
  {
    if inds != [] {
      IndustryTickersOfGroups(inds[1..], groups[1..]);
      MapAppend(groups[0], Concat(groups[1..]), TickerOf);
    }
  }

  /** The industry summaries of a sector account for each of its stocks once. */
  lemma IndustriesOfProperties(members: seq<Stock>)
    ensures forall ind :: ind in IndustriesOf(members) ==> IsIndustrySummary(members, ind) && ind.size == |ind.tickers|
    ensures Distinct(Map(IndustriesOf(members), IndustryLabel))
    ensures multiset(FlatMap(IndustriesOf(members), IndustryTickers)) == multiset(Map(members, TickerOf))
  {
    var inds := IndustriesOf(members);
    var keys := Keys(members, IndustryName);
    var groups: seq<seq<Stock>> := GroupBy(members, IndustryName);
    GroupByShape(members, IndustryName);
    assert Map(inds, IndustryLabel) == keys;
    IndustryTickersOfGroups(inds, groups);
    GroupByConserves(members, IndustryName);
    MapPermutation(Concat(groups), members, TickerOf);
  }

  /** A sector summary is what `IsSectorSummary` asks of its group. */
  lemma SectorOfProperties(members: seq<Stock>, name: string)
    requires members != []
    ensures var sec := SectorOf(name, members);
      && sec.size == SumIndustrySizes(sec.industries)
      && SortedDesc(sec.industries, IndustrySize)
      && Distinct(Map(sec.industries, IndustryLabel))
      && (forall ind :: ind in sec.industries ==> IsIndustrySummary(members, ind))
      && multiset(SectorTickers(sec)) == multiset(Map(members, TickerOf))
      && sec.size == |SectorTickers(sec)|
  {
    var inds := IndustriesOf(members);
    var sorted := SortDesc(inds, IndustrySize);
    SortDescSorted(inds, IndustrySize);
    SortDescPermutation(inds, IndustrySize);
    IndustriesOfProperties(members);
    SortKeeps(inds, sorted, IndustryLabel, IndustryTickers);
    IndustrySizesCount(sorted);
    assert |multiset(FlatMap(sorted, IndustryTickers))| == |members|;
  }

  /** The inner loop (src/summary.rs:53-72): one industry summary per group,
      their sizes added up. */
  method SummarizeIndustries(keys: seq<string>, groups: seq<seq<Stock>>)
    returns (industries: seq<SummaryIndustry>, size: nat)
    requires |keys| == |groups| && forall k :: 0 <= k < |groups| ==> groups[k] != []
    ensures |industries| == |keys|
    ensures forall k :: 0 <= k < |keys| ==> industries[k] == IndustryOf(keys[k], groups[k])
    ensures size == |Concat(groups)|
  {
    industries := [];
    size := 0;
    for g := 0 to |groups|
      invariant |industries| == g
      invariant forall k :: 0 <= k < g ==> industries[k] == IndustryOf(keys[k], groups[k])
      invariant size == |Concat(groups[..g])|
    {
      var group := groups[g];
      var ind := SummaryIndustry(keys[g], group[0].industry.url, |group|, Map(group, TickerOf));
      size := size + ind.size;
      industries := industries + [ind];
      ConcatPrefix(groups, g);
    }
    assert groups[..|groups|] == groups;
  }

  /** The body of the outer loop for one sector (src/summary.rs:43-75): the
      industry summaries, their sizes added up, sorted by size, largest first. */
  method SummarizeSector(name: string, members: seq<Stock>) returns (sec: SummarySector)
    requires members != []
    ensures sec == SectorOf(name, members)
  {
    var keys := Keys(members, IndustryName);
    var groups: seq<seq<Stock>> := GroupBy(members, IndustryName);
    GroupByShape(members, IndustryName);
    var industries, size := SummarizeIndustries(keys, groups);
    assert industries == IndustriesOf(members);
    GroupByConserves(members, IndustryName);
    assert |multiset(Concat(groups))| == |multiset(members)|;
    industries := SortDesc(industries, IndustrySize);
    sec := SummarySector(name, members[0].sector.url, size, industries);
  }

  /** The specification of `summarize`: the sector summaries sorted by size. */
  function SummaryOf(stocks: seq<Stock>): Summary {
    Summary(|stocks|, SortDesc(SectorsOf(stocks), SectorSize))
  }

  /** Sector summaries whose tickers are those of their groups, up to order,
      hold the tickers of the concatenated groups, up to order. */
  lemma {:induction false} SectorTickersOfGroups(secs: seq<SummarySector>, groups: seq<seq<Stock>>)
    requires |secs| == |groups|
    requires forall k :: 0 <= k < |secs| ==> multiset(SectorTickers(secs[k])) == multiset(Map(groups[k], TickerOf))
    ensures multiset(AllTickers(secs)) == multiset(Map(Concat(groups), TickerOf))
  {
    if secs != [] {
      SectorTickersOfGroups(secs[1..], groups[1..]);
      MapAppend(groups[0], Concat(groups[1..]), TickerOf);
    }
  }

  /** The sector summaries, before sorting: one per sector name, in order of
      first appearance, each what `IsSectorSummary` asks of its group. */
  lemma SectorsOfProperties(stocks: seq<Stock>)
    ensures var secs := SectorsOf(stocks);
      && Map(secs, SectorLabel) == Keys(stocks, SectorName)
      && (forall sec :: sec in secs ==> sec.size > 0 && IsSectorSummary(stocks, sec))
      && (forall sec :: sec in secs ==> sec.size == |SectorTickers(sec)|)
      && multiset(AllTickers(secs)) == multiset(Map(stocks, TickerOf))
  {
    var secs := SectorsOf(stocks);
    var keys := Keys(stocks, SectorName);
    var groups: seq<seq<Stock>> := GroupBy(stocks, SectorName);
    GroupByShape(stocks, SectorName);
    forall k | 0 <= k < |secs|
      ensures multiset(SectorTickers(secs[k])) == multiset(Map(groups[k], TickerOf))
      ensures secs[k].size > 0 && IsSectorSummary(stocks, secs[k])
      ensures secs[k].size == |SectorTickers(secs[k])|
      ensures secs[k].name == keys[k]
    {
      SectorsForAt(keys, groups, k);
      SectorOfProperties(groups[k], keys[k]);
    }
    assert Map(secs, SectorLabel) == keys;
    SectorTickersOfGroups(secs, groups);
    GroupByConserves(stocks, SectorName);
    MapPermutation(Concat(groups), stocks, TickerOf);
  }

  /** Sorting sector summaries by size keeps them, their tickers up to order
      and the sum of their sizes. */
  lemma SortedSectorsProperties(secs: seq<SummarySector>)
    requires Distinct(Map(secs, SectorLabel))
    requires forall sec :: sec in secs ==> sec.size == |SectorTickers(sec)|
    ensures var sorted := SortDesc(secs, SectorSize);
      && SortedDesc(sorted, SectorSize)
      && Distinct(Map(sorted, SectorLabel))
      && (forall sec :: sec in sorted <==> sec in secs)
      && multiset(AllTickers(sorted)) == multiset(AllTickers(secs))
      && SumSectorSizes(sorted) == |AllTickers(secs)|
  {
    var sorted := SortDesc(secs, SectorSize);
    SortDescSorted(secs, SectorSize);
    SortDescPermutation(secs, SectorSize);
    SortKeeps(secs, sorted, SectorLabel, SectorTickers);
    SectorSizesCount(sorted);
    assert |multiset(AllTickers(sorted))| == |multiset(AllTickers(secs))|;
  }

  /** The properties the summary promises. */
  lemma SummaryOfProperties(stocks: seq<Stock>)
    ensures var r := SummaryOf(stocks);
      && r.size == SumSectorSizes(r.sectors)
      && SortedDesc(r.sectors, SectorSize)
      && Distinct(Map(r.sectors, SectorLabel))
      && (forall sec :: sec in r.sectors ==> sec.size > 0 && IsSectorSummary(stocks, sec))
      && (forall i :: 0 <= i < |stocks| ==> exists sec :: sec in r.sectors && sec.name == SectorName(stocks[i]))
      && multiset(AllTickers(r.sectors)) == multiset(Map(stocks, TickerOf))
  {
    var secs := SectorsOf(stocks);
    var keys := Keys(stocks, SectorName);
    SectorsOfProperties(stocks);
    SortedSectorsProperties(secs);
    assert |multiset(AllTickers(secs))| == |stocks|;
    forall i | 0 <= i < |stocks| ensures exists sec :: sec in secs && sec.name == SectorName(stocks[i]) {
      var k :| 0 <= k < |keys| && keys[k] == SectorName(stocks[i]);
      assert Map(secs, SectorLabel)[k] == keys[k];
      assert secs[k] in secs;
    }
  }

  /** The outer loop (src/summary.rs:38-80): one sector summary per group,
      kept when its size is positive, sizes added up. */
  method SummarizeSectors(keys: seq<string>, groups: seq<seq<Stock>>)
    returns (sectors: seq<SummarySector>, size: nat)
    requires |keys| == |groups| && forall k :: 0 <= k < |groups| ==> groups[k] != []
    ensures sectors == SectorsFor(keys, groups)
    ensures size == |Concat(groups)|
  {
    sectors := [];
    size := 0;
    for g := 0 to |groups|
      invariant sectors == SectorsFor(keys[..g], groups[..g])
      invariant size == |Concat(groups[..g])|
    {
      var group := groups[g];
      var sec := SummarizeSector(keys[g], group);
      SectorsForSnoc(keys, groups, g);
      if sec.size > 0 {
        size := size + sec.size;
        sectors := sectors + [sec];
      }
      ConcatPrefix(groups, g);
    }
    assert keys[..|keys|] == keys && groups[..|groups|] == groups;
  }

  /** `Summary::summarize`: groups by sector, summarises each sector, keeps
      the non-empty ones, sorts by size, largest first. */
  method Summarize(stocks: seq<Stock>) returns (r: Summary)
    ensures r == SummaryOf(stocks)
    ensures r.size == |stocks| && r.size == SumSectorSizes(r.sectors)
    ensures SortedDesc(r.sectors, SectorSize)
    ensures forall sec :: sec in r.sectors ==> sec.size > 0 && IsSectorSummary(stocks, sec)
    ensures multiset(AllTickers(r.sectors)) == multiset(Map(stocks, TickerOf))
  {
    var keys := Keys(stocks, SectorName);
    var groups: seq<seq<Stock>> := GroupBy(stocks, SectorName);
    GroupByShape(stocks, SectorName);
    var sectors, size := SummarizeSectors(keys, groups);
    assert sectors == SectorsOf(stocks);
    GroupByConserves(stocks, SectorName);
    assert |multiset(Concat(groups))| == |multiset(stocks)|;
    sectors := SortDesc(sectors, SectorSize);
    r := Summary(size, sectors);
    SummaryOfProperties(stocks);
  }
}
