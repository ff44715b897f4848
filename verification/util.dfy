/** The helpers of src/util.rs: market freshness, the group-name normaliser,
    percentage clean-up, trailing returns, the relative-strength ratio and
    stock-list parsing. The clock, the configuration, file contents, the
    calendar-month subtraction and the `f64` parser are parameters. */
module Util {
  import opened Wrappers
  import opened Domain
  import opened Calendar
  import opened Text
  import Seqs

  // ------------------------------------------------------------ is_upto_date

  /** A wall-clock time of day in seconds since midnight. */
  type TimeOfDay = t: int | 0 <= t < 86400

  /** The configured market hours, local time. */
  datatype MarketHours = MarketHours(open: TimeOfDay, close: TimeOfDay)

  /** The market-close instant of a day. */
  function CloseAt(day: int, hours: MarketHours): int {
    day * SecondsPerDay + hours.close
  }

  /** Whether the market is in session at `now`: a weekday, between open (inclusive) and close (exclusive). */
  predicate MarketOpen(now: int, hours: MarketHours) {
    !IsWeekend(DayOf(now)) && hours.open <= TimeOf(now) < hours.close
  }

  /** The day of the latest weekday market close at or before `now`: today
      when today is a weekday whose close has passed, else the previous
      weekday, never more than three days back. */
  function LastMarketCloseDay(now: int, hours: MarketHours): (day: int)
    ensures DayOf(now) - 3 <= day <= DayOf(now)
    ensures !IsWeekend(day) && CloseAt(day, hours) <= now
    ensures forall d :: day < d && !IsWeekend(d) ==> CloseAt(d, hours) > now
  {
    var today := DayOf(now);
    DayOfTimeOf(now);
    WeekdayPrevious(today);
    WeekdayPrevious(today - 1);
    WeekdayPrevious(today - 2);
    var day :=
      if !IsWeekend(today) && CloseAt(today, hours) <= now then today
      else if Weekday(today) == 0 then today - 3
      else if Weekday(today) == 6 then today - 2
      else today - 1;
    forall d | day < d && !IsWeekend(d) ensures CloseAt(d, hours) > now {
      if d > today {
        assert CloseAt(d, hours) >= (today + 1) * SecondsPerDay;
      }
    }
    day
  }

  /** The freshness verdict `is_upto_date` computes. */
  predicate UpToDate(time: int, now: int, hours: MarketHours) {
    !MarketOpen(now, hours) && time >= CloseAt(LastMarketCloseDay(now, hours), hours)
  }

  /** `is_upto_date`: never fresh while the market is open; otherwise fresh
      exactly when `time` is at or after the last market close. The loop walks
      back from today, skipping weekends and days whose close is still ahead. */
  method IsUpToDate(time: int, now: int, hours: MarketHours) returns (upToDate: bool)
    ensures MarketOpen(now, hours) ==> !upToDate
    ensures !MarketOpen(now, hours) ==> (upToDate <==> time >= CloseAt(LastMarketCloseDay(now, hours), hours))
    ensures upToDate == UpToDate(time, now, hours)
  {
    if MarketOpen(now, hours) {
      return false;
    }
    var last := LastMarketCloseDay(now, hours);
    var candidate := DayOf(now);
    var closeDt := 0;
    while true
      invariant last <= candidate <= DayOf(now)
      decreases candidate - last
    {
      if IsWeekend(candidate) {
        candidate := candidate - 1;
      } else {
        closeDt := CloseAt(candidate, hours);
        if closeDt <= now {
          break;
        }
        candidate := candidate - 1;
      }
    }
    assert candidate == last;
    upToDate := time >= closeDt;
  }

  // --------------------------------------------------------------- normalize

  /** The four slash look-alikes: fullwidth solidus, fraction slash, division slash, big solidus. */
  predicate IsSlashLookalike(c: char) {
    c == '／' || c == '⁄' || c == '∕' || c == '⧸'
  }

  function AsciiSlash(c: char): char {
    if IsSlashLookalike(c) then '/' else c
  }

  function AsciiSpace(c: char): char {
    if IsWhitespace(c) then ' ' else c
  }

  /** Steps 1 to 3 of the normaliser: ASCII slashes and spaces, single-spaced. */
  function Canonical(input: string): string {
    Collapse(Seqs.Map(Seqs.Map(input, AsciiSlash), AsciiSpace))
  }

  predicate IsWordBoundary(c: char) {
    c == ' ' || c == '/'
  }

  /** `r` is `s` title-cased: boundaries pass through, the first character
      and every character after a boundary is upper-cased, every other
      character is lower-cased. */
  predicate TitleCased(s: string, r: string) {
    && |r| == |s|
    && (forall i :: 0 <= i < |s| && IsWordBoundary(s[i]) ==> r[i] == s[i])
    && (|s| > 0 && !IsWordBoundary(s[0]) ==> r[0] == ToUpper(s[0]))
    && (forall i :: 0 < i < |s| && !IsWordBoundary(s[i]) && IsWordBoundary(s[i - 1]) ==>
          r[i] == ToUpper(s[i]))
    && (forall i :: 0 < i < |s| && !IsWordBoundary(s[i]) && !IsWordBoundary(s[i - 1]) ==>
          r[i] == ToLower(s[i]))
  }

  /** Step 4 of the normaliser: one pass with a `capitalizeNext` flag. */
  method TitleCase(s: string) returns (r: string)
    ensures TitleCased(s, r)
  {
    r := [];
    var capitalizeNext := true;
    for i := 0 to |s|
      invariant |r| == i
      invariant capitalizeNext <==> (i == 0 || IsWordBoundary(s[i - 1]))
      invariant forall k :: 0 <= k < i && IsWordBoundary(s[k]) ==> r[k] == s[k]
      invariant i > 0 && !IsWordBoundary(s[0]) ==> r[0] == ToUpper(s[0])
      invariant forall k :: 0 < k < i && !IsWordBoundary(s[k]) && IsWordBoundary(s[k - 1]) ==>
        r[k] == ToUpper(s[k])
      invariant forall k :: 0 < k < i && !IsWordBoundary(s[k]) && !IsWordBoundary(s[k - 1]) ==>
        r[k] == ToLower(s[k])
    {
      var ch := s[i];
      if ch == ' ' || ch == '/' {
        r := r + [ch];
        capitalizeNext := true;
      } else if capitalizeNext {
        r := r + [ToUpper(ch)];
        capitalizeNext := false;
      } else {
        r := r + [ToLower(ch)];
      }
    }
  }

  /** ASCII case mapping leaves spaces, whitespace and slash look-alikes as they are. */
  lemma CaseKeepsClass(c: char)
    ensures (ToUpper(c) == ' ') == (c == ' ') && (ToLower(c) == ' ') == (c == ' ')
    ensures IsSlashLookalike(ToUpper(c)) == IsSlashLookalike(c) && IsSlashLookalike(ToLower(c)) == IsSlashLookalike(c)
    ensures IsWhitespace(ToUpper(c)) == IsWhitespace(c) && IsWhitespace(ToLower(c)) == IsWhitespace(c)
  {
  }

  /** Title-casing changes letters only: each position keeps its space,
      whitespace and look-alike status. */
  lemma TitleCasedKeepsClass(s: string, r: string)
    requires TitleCased(s, r)
    ensures forall i :: 0 <= i < |r| ==>
      && (r[i] == ' ') == (s[i] == ' ')
      && IsSlashLookalike(r[i]) == IsSlashLookalike(s[i])
      && IsWhitespace(r[i]) == IsWhitespace(s[i])
  {
    forall i | 0 <= i < |r|
      ensures (r[i] == ' ') == (s[i] == ' ')
      ensures IsSlashLookalike(r[i]) == IsSlashLookalike(s[i])
      ensures IsWhitespace(r[i]) == IsWhitespace(s[i])
    {
      CaseKeepsClass(s[i]);
      if IsWordBoundary(s[i]) {
      } else if i == 0 {
        assert r[0] == ToUpper(s[0]);
      } else if IsWordBoundary(s[i - 1]) {
        assert r[i] == ToUpper(s[i]);
      } else {
        assert r[i] == ToLower(s[i]);
      }
    }
  }

  /** Spaces in the same places means single spacing carries over. */
  lemma SameSpacesSingleSpaced(s: string, r: string)
    requires SingleSpaced(s) && |r| == |s|
    requires forall i :: 0 <= i < |r| ==> (r[i] == ' ') == (s[i] == ' ')
    ensures SingleSpaced(r)
  {
  }

  /** `normalize`: slash look-alikes become '/', whitespace becomes ' ', runs
      of spaces collapse and the ends are trimmed, then the words are title-cased. */
  method Normalize(input: string) returns (r: string)
    ensures TitleCased(Canonical(input), r)
    ensures SingleSpaced(r)
    ensures forall i :: 0 <= i < |r| ==> !IsSlashLookalike(r[i]) && (r[i] == ' ' || !IsWhitespace(r[i]))
  {
    var slashes := Seqs.Map(input, AsciiSlash);
    var spaces := Seqs.Map(slashes, AsciiSpace);
    var collapsed := Collapse(spaces);
    forall c | c in collapsed ensures !IsSlashLookalike(c) && (c == ' ' || !IsWhitespace(c)) {
      if c != ' ' {
        assert c in spaces;
      }
    }
    r := TitleCase(collapsed);
    TitleCasedKeepsClass(collapsed, r);
    SameSpacesSingleSpaced(collapsed, r);
    forall i | 0 <= i < |r| ensures !IsSlashLookalike(r[i]) && (r[i] == ' ' || !IsWhitespace(r[i])) {
      assert collapsed[i] in collapsed;
    }
  }

  // -------------------------------------------------------- parse_percentage

  /** The text handed to the `f64` parser: trimmed, U+2212 minus made ASCII,
      every '+', '%' and ',' deleted. */
  function CleanPercentage(s: string): (r: string)
    ensures '+' !in r && '%' !in r && ',' !in r && '−' !in r
    ensures forall c :: c !in "+%,-−" ==> (c in r <==> c in Trim(s))
    ensures '-' in r <==> '-' in Trim(s) || '−' in Trim(s)
  {
    var t := Trim(s);
    var minus := ReplaceChar(t, '−', '-');
    ReplaceCharMembers(t, '−', '-');
    RemoveChar(RemoveChar(RemoveChar(minus, '+'), '%'), ',')
  }

  const PercentageErrorPrefix: string := "Failed to parse percentage: \""

  /** `parse_percentage`: the cleaned text parsed by `parseF64`; a failure
      carries the original, uncleaned input. */
  function ParsePercentage(s: string, parseF64: string -> Option<real>): (r: Result<real, string>)
    ensures r.Success? <==> parseF64(CleanPercentage(s)).Some?
    ensures r.Success? ==> r.value == parseF64(CleanPercentage(s)).value
    ensures r.Failure? ==> OccursAt(r.error, s, |PercentageErrorPrefix|)
  {
    match parseF64(CleanPercentage(s))
    case Some(v) => Success(v)
    case None =>
      var msg := PercentageErrorPrefix + s + "\"";
      assert msg[|PercentageErrorPrefix|..|PercentageErrorPrefix| + |s|] == s;
      Failure(msg)
  }

  // ------------------------------------------------------------ compute_perf

  /** `|(c.timestamp - target).num_seconds()|`. */
  function Distance(c: Candle, target: int): nat {
    if c.timestamp >= target then c.timestamp - target else target - c.timestamp
  }

  /** `k` is where `min_by_key` on the distance stops: a nearest candle, and
      no earlier candle is as near. */
  predicate FirstNearest(cs: seq<Candle>, target: int, k: int) {
    && 0 <= k < |cs|
    && (forall j :: 0 <= j < |cs| ==> Distance(cs[k], target) <= Distance(cs[j], target))
    && (forall j :: 0 <= j < k ==> Distance(cs[j], target) > Distance(cs[k], target))
  }

  /** `min_by_key`: the first candle of least distance to `target`. */
  function NearestIndex(cs: seq<Candle>, target: int): (k: nat)
    requires |cs| > 0
    ensures FirstNearest(cs, target, k)
  {
    if |cs| == 1 then 0
    else
      var k := NearestIndex(cs[..|cs| - 1], target);
      if Distance(cs[|cs| - 1], target) < Distance(cs[k], target) then |cs| - 1 else k
  }

  /** `(latest - reference) / reference * 100`. */
  function Change(latest: real, reference: real): real
    requires reference != 0.0
  {
    (latest - reference) / reference * 100.0
  }

  /** `v` is the return over `months`: the percentage change up to the
      latest close from the first candle nearest to the latest timestamp
      minus `months` calendar months. */
  ghost predicate HorizonReturn(cs: seq<Candle>, months: nat, minusMonths: (int, nat) -> int, v: real)
    requires |cs| > 0
  {
    exists k :: FirstNearest(cs, minusMonths(cs[|cs| - 1].timestamp, months), k)
      && cs[k].close != 0.0 && v == Change(cs[|cs| - 1].close, cs[k].close)
  }

  /** The candle the horizon over `months` measures from has a non-zero
      close; the other candles' closes are never divided by. */
  predicate ReferenceNonZero(cs: seq<Candle>, months: nat, minusMonths: (int, nat) -> int) {
    |cs| > 0 && forall k :: 0 <= k < |cs| && FirstNearest(cs, minusMonths(cs[|cs| - 1].timestamp, months), k) ==> cs[k].close != 0.0
  }

  /** `closest_close`: the return over one horizon. */
  function ClosestClose(cs: seq<Candle>, months: nat, minusMonths: (int, nat) -> int): (r: real)
    requires ReferenceNonZero(cs, months, minusMonths)
    ensures HorizonReturn(cs, months, minusMonths, r)
  {
    var latest := cs[|cs| - 1];
    var k := NearestIndex(cs, minusMonths(latest.timestamp, months));
    Change(latest.close, cs[k].close)
  }

  /** The performance map of four horizon returns. */
  function PerfMap(m1: real, m3: real, m6: real, y1: real): (r: map<string, real>)
    ensures r.Keys == {"1M", "3M", "6M", "1Y"}
    ensures r["1M"] == m1 && r["3M"] == m3 && r["6M"] == m6 && r["1Y"] == y1
  {
    map["1M" := m1, "3M" := m3, "6M" := m6, "1Y" := y1]
  }

  /** `compute_perf`: nothing for no candles; otherwise exactly the keys 1M,
      3M, 6M and 1Y, holding the returns over 1, 3, 6 and 12 months. */
  function ComputePerf(cs: seq<Candle>, minusMonths: (int, nat) -> int): (r: map<string, real>)
    requires cs != [] ==> (&& ReferenceNonZero(cs, 1, minusMonths) && ReferenceNonZero(cs, 3, minusMonths)
                           && ReferenceNonZero(cs, 6, minusMonths) && ReferenceNonZero(cs, 12, minusMonths))
    ensures cs == [] ==> r == map[]
    ensures cs != [] ==> r.Keys == {"1M", "3M", "6M", "1Y"}
    ensures cs != [] ==>
      && HorizonReturn(cs, 1, minusMonths, r["1M"])
      && HorizonReturn(cs, 3, minusMonths, r["3M"])
      && HorizonReturn(cs, 6, minusMonths, r["6M"])
      && HorizonReturn(cs, 12, minusMonths, r["1Y"])
  {
    if cs == [] then map[]
    else
      PerfMap(ClosestClose(cs, 1, minusMonths), ClosestClose(cs, 3, minusMonths),
              ClosestClose(cs, 6, minusMonths), ClosestClose(cs, 12, minusMonths))
  }

  /** Over a single candle every horizon's reference is that candle. */
  lemma HorizonReturnSingle(c: Candle, months: nat, minusMonths: (int, nat) -> int, v: real)
    requires c.close != 0.0 && HorizonReturn([c], months, minusMonths, v)
    ensures v == 0.0
  {
    var k :| FirstNearest([c], minusMonths(c.timestamp, months), k) && v == Change(c.close, [c][k].close);
  }

  /** A single candle gives a return of 0 for every horizon. */
  lemma ComputePerfSingle(c: Candle, minusMonths: (int, nat) -> int)
    requires c.close != 0.0
    ensures forall key :: key in ComputePerf([c], minusMonths) ==> ComputePerf([c], minusMonths)[key] == 0.0
  {
    var r := ComputePerf([c], minusMonths);
    HorizonReturnSingle(c, 1, minusMonths, r["1M"]);
    HorizonReturnSingle(c, 3, minusMonths, r["3M"]);
    HorizonReturnSingle(c, 6, minusMonths, r["6M"]);
    HorizonReturnSingle(c, 12, minusMonths, r["1Y"]);
  }

  // -------------------------------------------------------------- compute_rs

  /** `1 + (0.3·1M + 0.4·3M + 0.2·6M + 0.1·1Y) / 100`. */
  function Multiplier(p: Performance): real {
    1.0 + (p.perf1m * 0.3 + p.perf3m * 0.4 + p.perf6m * 0.2 + p.perf1y * 0.1) / 100.0
  }

  /** `compute_rs`: the ratio of the two multipliers. */
  function ComputeRs(perf: Performance, base: Performance): (r: real)
    requires Multiplier(base) != 0.0
    ensures r * Multiplier(base) == Multiplier(perf)
  {
    Multiplier(perf) / Multiplier(base)
  }

  /** Anything measured against itself has relative strength 1. */
  lemma ComputeRsSelf(p: Performance)
    requires Multiplier(p) != 0.0
    ensures ComputeRs(p, p) == 1.0
  {
    var m := Multiplier(p);
    assert (ComputeRs(p, p) - 1.0) * m == 0.0;
  }

  /** Against a base with a positive multiplier, relative strength ranks as
      the weighted returns do. */
  lemma ComputeRsMonotone(p: Performance, q: Performance, base: Performance)
    requires Multiplier(base) > 0.0
    ensures Multiplier(p) <= Multiplier(q) <==> ComputeRs(p, base) <= ComputeRs(q, base)
  {
    var m := Multiplier(base);
    assert (ComputeRs(q, base) - ComputeRs(p, base)) * m == Multiplier(q) - Multiplier(p);
  }

  // ------------------------------------------------ parse_stocks, read_stocks

  /** The stock symbol of one line: its first comma-separated field of the
      trimmed line, trimmed and upper-cased. */
  function StockOfLine(line: string): string {
    Upper(Trim(Split(Trim(line), ',')[0]))
  }

  /** Neither end is whitespace. */
  predicate Trimmed(s: string) {
    s == [] || (!IsWhitespace(s[0]) && !IsWhitespace(s[|s| - 1]))
  }

  /** What every symbol looks like: no comma, trimmed, no lower-case ASCII letter. */
  predicate SymbolShaped(s: string) {
    ',' !in s && Trimmed(s) && forall i :: 0 <= i < |s| ==> !IsAsciiLower(s[i])
  }

  lemma StockOfLineShape(line: string)
    ensures SymbolShaped(StockOfLine(line))
  {
    var field := Split(Trim(line), ',')[0];
    TrimCommaFree(field);
    UpperShaped(Trim(field));
  }

  /** Trimming a comma-free field leaves it comma-free and trimmed. */
  lemma TrimCommaFree(field: string)
    requires ',' !in field
    ensures ',' !in Trim(field) && Trimmed(Trim(field))
  {
    if ',' in Trim(field) {
      TrimMembers(field, ',');
    }
  }

  /** Upper-casing keeps a string trimmed and comma-free. */
  lemma UpperShaped(t: string)
    requires ',' !in t && Trimmed(t)
    ensures SymbolShaped(Upper(t))
  {
    var u := Upper(t);
    forall i | 0 <= i < |u| ensures u[i] != ',' {
      assert t[i] in t;
    }
    if u != [] {
      assert u[0] == ToUpper(t[0]) && u[|u| - 1] == ToUpper(t[|t| - 1]);
    }
  }

  /** `s` is the image under `f` of a line at or after `skipLines`. */
  predicate ImageOfLine(lines: seq<string>, skipLines: nat, s: string, f: string -> string) {
    exists i :: skipLines <= i < |lines| && s == f(lines[i])
  }

  /** Mapping the lines after the first `skipLines` gives the images of exactly those lines. */
  lemma MappedLines(lines: seq<string>, skipLines: nat, kept: seq<string>, symbols: seq<string>, f: string -> string)
    requires kept == if skipLines <= |lines| then lines[skipLines..] else []
    requires symbols == Seqs.Map(kept, f)
    ensures forall s :: s in symbols <==> ImageOfLine(lines, skipLines, s, f)
  {
    forall s | s in symbols ensures ImageOfLine(lines, skipLines, s, f) {
      var k :| 0 <= k < |symbols| && symbols[k] == s;
      assert kept[k] == lines[skipLines + k];
    }
    forall s | ImageOfLine(lines, skipLines, s, f) ensures s in symbols {
      var i :| skipLines <= i < |lines| && s == f(lines[i]);
      assert symbols[i - skipLines] == s;
    }
  }

  /** `parse_stocks` on a file's text: lines after the first `skipLines`, each
      reduced to its symbol, empty symbols dropped, in line order. */
  function ParseStocks(content: string, skipLines: nat): (r: seq<string>)
    ensures forall s :: s in r <==> s != [] && ImageOfLine(Lines(content), skipLines, s, StockOfLine)
  {
    var lines := Lines(content);
    var kept := if skipLines <= |lines| then lines[skipLines..] else [];
    var symbols := Seqs.Map(kept, StockOfLine);
    MappedLines(lines, skipLines, kept, symbols, StockOfLine);
    Seqs.FilterBy(symbols, s => s != [])
  }

  /** Every parsed symbol has the shape of a symbol. */
  lemma ParsedSymbolShaped(content: string, skipLines: nat, s: string)
    requires s in ParseStocks(content, skipLines)
    ensures SymbolShaped(s)
  {
    var lines := Lines(content);
    var i :| skipLines <= i < |lines| && s == StockOfLine(lines[i]);
    StockOfLineShape(lines[i]);
  }

  /** `Itertools::unique`: the first occurrence of each element, in order. */
  function Unique(xs: seq<string>): (r: seq<string>)
    ensures Seqs.Distinct(r)
    ensures forall x :: x in r <==> x in xs
  {
    if xs == [] then []
    else
      var r := Unique(xs[..|xs| - 1]);
      assert forall x :: x in xs <==> x in xs[..|xs| - 1] || x == xs[|xs| - 1] by {
        assert xs == xs[..|xs| - 1] + [xs[|xs| - 1]];
      }
      if xs[|xs| - 1] in r then r else r + [xs[|xs| - 1]]
  }

  /** The upper-cased, trimmed, non-empty entries of a comma-separated skip
      list together with the configured ignored stocks. */
  function SkipSet(skipStocks: string, ignored: seq<string>): (skips: set<string>)
    ensures forall s :: s in skips ==> s != []
  {
    var entries := Split(skipStocks, ',') + ignored;
    set e | e in entries && Trim(e) != [] :: Upper(Trim(e))
  }

  /** Some file lists `s`. */
  predicate Listed(contents: seq<string>, skipLines: nat, s: string) {
    exists f :: 0 <= f < |contents| && s in ParseStocks(contents[f], skipLines)
  }

  /** `read_stocks` before the shuffle: the symbols of every file in order,
      minus the skip set, each kept once. */
  function ReadStocks(contents: seq<string>, skipLines: nat, skipStocks: string, ignored: seq<string>): (r: seq<string>)
    ensures Seqs.Distinct(r)
    ensures forall s :: s in r <==> Listed(contents, skipLines, s) && s !in SkipSet(skipStocks, ignored)
  {
    var skips := SkipSet(skipStocks, ignored);
    var files := Seqs.Map(contents, c => ParseStocks(c, skipLines));
    var all := Seqs.Concat(files);
    forall s ensures s in all <==> Listed(contents, skipLines, s) {
      Seqs.ConcatMember(files, s);
      if s in all {
        var k :| 0 <= k < |files| && s in files[k];
        assert s in ParseStocks(contents[k], skipLines);
      }
      if Listed(contents, skipLines, s) {
        var f :| 0 <= f < |contents| && s in ParseStocks(contents[f], skipLines);
        assert s in files[f];
      }
    }
    Unique(Seqs.FilterBy(all, s => s !in skips))
  }
}
