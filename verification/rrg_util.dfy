/** The Relative Rotation Graph pipeline of src/rrg_util.rs: resample candles
    to daily or weekly closes, inner-join instrument and benchmark on date,
    smooth the price ratio with expanding-then-trailing simple moving
    averages, normalise twice around 100 (JdK RS-Ratio and RS-Momentum) and
    cut the tail and history windows. */
module RrgUtil {
  import opened Wrappers
  import opened Domain
  import opened Calendar
  import Text

  /** One period's close after resampling; `date` is a day number. */
  datatype PeriodClose = PeriodClose(date: int, close: real)

  datatype TailPoint = TailPoint(rsRatio: real, rsMomentum: real)
  datatype HistoryPoint = HistoryPoint(date: int, value: real)

  datatype RrgResponse = RrgResponse(ticker: string, rsRatio: real, rsMomentum: real,
                                     tail: seq<TailPoint>, rsHistory: seq<HistoryPoint>)

  /** `timestamp.date_naive()` of a UTC instant: the day number. */
  function DateOf(c: Candle): int {
    DayOf(c.timestamp)
  }

  /** The ISO 8601 week of a day: weeks run Monday to Sunday, numbered
      consecutively from the week holding day 0. Two days share a week index
      exactly when they share (ISO year, ISO week), and indices ascend as those
      pairs do, so the index stands for the pair as a grouping and ordering key. */
  function IsoWeek(date: int): int {
    (date + 3) / 7
  }

  /** A week index covers exactly one Monday-to-Sunday run of seven days. */
  lemma IsoWeekSpan(date: int)
    ensures 7 * IsoWeek(date) - 3 <= date <= 7 * IsoWeek(date) + 3
    ensures Weekday(7 * IsoWeek(date) - 3) == 0
    ensures date == 7 * IsoWeek(date) - 3 + Weekday(date)
  {
  }

  lemma IsoWeekMonotone(d1: int, d2: int)
    requires d1 <= d2
    ensures IsoWeek(d1) <= IsoWeek(d2)
  {
  }

  // ------------------------------------------------------------------ to_daily

  /** `to_daily`: one period close per candle, in input order. */
  function ToDaily(candles: seq<Candle>): (r: seq<PeriodClose>)
    ensures |r| == |candles|
    ensures forall i :: 0 <= i < |candles| ==> r[i] == PeriodClose(DateOf(candles[i]), candles[i].close)
  {
    if candles == [] then [] else [PeriodClose(DateOf(candles[0]), candles[0].close)] + ToDaily(candles[1..])
  }

  // ----------------------------------------------------------------- to_weekly

  /** An entry of the ordered week map: week index and the period close kept for it. */
  datatype WeekEntry = WeekEntry(week: int, value: PeriodClose)

  predicate WeeksAscending(t: seq<WeekEntry>) {
    forall i, j :: 0 <= i < j < |t| ==> t[i].week < t[j].week
  }

  function Lookup(t: seq<WeekEntry>, w: int): Option<PeriodClose> {
    if t == [] then None else if t[0].week == w then Some(t[0].value) else Lookup(t[1..], w)
  }

  lemma {:induction false} LookupAt(t: seq<WeekEntry>, k: nat)
    requires WeeksAscending(t) && k < |t|
    ensures Lookup(t, t[k].week) == Some(t[k].value)
  {
    if k > 0 {
      LookupAt(t[1..], k - 1);
    }
  }

  lemma {:induction false} LookupBelow(t: seq<WeekEntry>, w: int)
    requires WeeksAscending(t) && (t == [] || w < t[0].week)
    ensures Lookup(t, w) == None
  {
    if t != [] {
      LookupBelow(t[1..], w);
    }
  }

  /** `BTreeMap::insert`: sets week `w` to `v`, keeping the weeks in order. */
  function Put(t: seq<WeekEntry>, w: int, v: PeriodClose): (r: seq<WeekEntry>)
    requires WeeksAscending(t)
    ensures WeeksAscending(r)
    ensures forall x :: Lookup(r, x) == if x == w then Some(v) else Lookup(t, x)
    ensures forall e :: e in r ==> e in t || e == WeekEntry(w, v)
  {
    if t == [] then [WeekEntry(w, v)]
    else if w < t[0].week then
      LookupBelow(t, w);
      [WeekEntry(w, v)] + t
    else if w == t[0].week then [WeekEntry(w, v)] + t[1..]
    else
      var rest := Put(t[1..], w, v);
      assert forall e :: e in t[1..] ==> t[0].week < e.week;
      [t[0]] + rest
  }

  /** The close of the last candle, in input order, whose ISO week is `w`. */
  function LastOfWeek(candles: seq<Candle>, w: int): (r: Option<PeriodClose>)
    ensures r.Some? ==> IsoWeek(r.value.date) == w
  {
    if candles == [] then None
    else
      var c := candles[|candles| - 1];
      if IsoWeek(DateOf(c)) == w then Some(PeriodClose(DateOf(c), c.close))
      else LastOfWeek(candles[..|candles| - 1], w)
  }

  /** The week map after inserting every candle in order. */
  function WeekTable(candles: seq<Candle>): (t: seq<WeekEntry>)
    ensures WeeksAscending(t)
    ensures forall w :: Lookup(t, w) == LastOfWeek(candles, w)
  {
    if candles == [] then []
    else
      var c := candles[|candles| - 1];
      Put(WeekTable(candles[..|candles| - 1]), IsoWeek(DateOf(c)), PeriodClose(DateOf(c), c.close))
  }

  function Values(t: seq<WeekEntry>): (r: seq<PeriodClose>)
    ensures |r| == |t| && forall k :: 0 <= k < |t| ==> r[k] == t[k].value
  {
    if t == [] then [] else [t[0].value] + Values(t[1..])
  }

  /** The weekly resample: the week map's values in ascending week order. */
  function WeeklySeries(candles: seq<Candle>): seq<PeriodClose> {
    Values(WeekTable(candles))
  }

  /** The set of week indices of a sequence of period closes. */
  function WeeksOf(ps: seq<PeriodClose>): set<int> {
    set p | p in ps :: IsoWeek(p.date)
  }

  /** The weekly resample has one entry per week that has a candle, in
      ascending week order, each the last candle of its week; every
      candle's week is among them. */
  lemma WeeklyCharacterization(candles: seq<Candle>)
    ensures var r := WeeklySeries(candles);
      && (forall i, j :: 0 <= i < j < |r| ==> IsoWeek(r[i].date) < IsoWeek(r[j].date))
      && (forall i :: 0 <= i < |r| ==> LastOfWeek(candles, IsoWeek(r[i].date)) == Some(r[i]))
      && (forall w :: LastOfWeek(candles, w).Some? <==> w in WeeksOf(r))
      && (forall i :: 0 <= i < |candles| ==> IsoWeek(DateOf(candles[i])) in WeeksOf(r))
  {
    var t := WeekTable(candles);
    var r := WeeklySeries(candles);
    forall k | 0 <= k < |t| ensures IsoWeek(t[k].value.date) == t[k].week && LastOfWeek(candles, t[k].week) == Some(t[k].value) {
      LookupAt(t, k);
    }
    forall w | LastOfWeek(candles, w).Some? ensures w in WeeksOf(r) {
      var k := LookupIndex(t, w);
      assert r[k] in r;
    }
    forall i | 0 <= i < |candles| ensures LastOfWeek(candles, IsoWeek(DateOf(candles[i]))).Some? {
      LastOfWeekPresent(candles, i);
    }
  }

  lemma {:induction false} LookupIndex(t: seq<WeekEntry>, w: int) returns (k: nat)
    requires Lookup(t, w).Some?
    ensures k < |t| && t[k].week == w && t[k].value == Lookup(t, w).value
  {
    if t[0].week == w {
      k := 0;
    } else {
      var k' := LookupIndex(t[1..], w);
      k := k' + 1;
    }
  }

  /** A week that has a candle. */
  lemma LastOfWeekPresent(candles: seq<Candle>, i: nat)
    requires i < |candles|
    ensures LastOfWeek(candles, IsoWeek(DateOf(candles[i]))).Some?
  {
    if i < |candles| - 1 {
      LastOfWeekPresent(candles[..|candles| - 1], i);
    }
  }

  /** The insertion loop of `to_weekly`: every candle's close goes into an
      ordered map keyed by its ISO week, later candles overwriting earlier ones. */
  method WeekMap(candles: seq<Candle>) returns (weeks: seq<WeekEntry>)
    ensures WeeksAscending(weeks)
    ensures forall w :: Lookup(weeks, w) == LastOfWeek(candles, w)
  {
    weeks := [];
    for i := 0 to |candles|
      invariant WeeksAscending(weeks)
      invariant weeks == WeekTable(candles[..i])
    {
      var c := candles[i];
      var date := DateOf(c);
      weeks := Put(weeks, IsoWeek(date), PeriodClose(date, c.close));
      assert candles[..i + 1][..i] == candles[..i];
    }
    assert candles[..|candles|] == candles;
  }

  /** An ordered week map is determined by what it maps each week to. */
  lemma {:induction false} WeekTableUnique(a: seq<WeekEntry>, b: seq<WeekEntry>)
    requires WeeksAscending(a) && WeeksAscending(b)
    requires forall w :: Lookup(a, w) == Lookup(b, w)
    ensures a == b
  {
    HeadLookup(a);
    HeadLookup(b);
    if a != [] && b != [] {
      if a[0].week != b[0].week {
        if a[0].week < b[0].week {
          WeekAbsent(b, a[0].week);
        } else {
          WeekAbsent(a, b[0].week);
        }
      } else {
        forall w ensures Lookup(a[1..], w) == Lookup(b[1..], w) {
          if w == a[0].week {
            WeekAbsent(a[1..], w);
            WeekAbsent(b[1..], w);
          } else {
            assert Lookup(a, w) == Lookup(a[1..], w) && Lookup(b, w) == Lookup(b[1..], w);
          }
        }
        WeekTableUnique(a[1..], b[1..]);
        assert a == [a[0]] + a[1..] && b == [b[0]] + b[1..];
      }
    }
  }

  /** The first key of a map is found, with its value. */
  lemma HeadLookup(t: seq<WeekEntry>)
    ensures t != [] ==> Lookup(t, t[0].week) == Some(t[0].value)
  {
  }

  /** A week below every key of an ordered map is not in it. */
  lemma WeekAbsent(t: seq<WeekEntry>, w: int)
    requires WeeksAscending(t)
    requires t == [] || w < t[0].week
    ensures Lookup(t, w) == None
  {
    if Lookup(t, w).Some? {
      var k := LookupIndex(t, w);
    }
  }

  /** `to_weekly`: the week map's values, in ascending week order. */
  method ToWeekly(candles: seq<Candle>) returns (closes: seq<PeriodClose>)
    ensures closes == WeeklySeries(candles)
    ensures forall i, j :: 0 <= i < j < |closes| ==> IsoWeek(closes[i].date) < IsoWeek(closes[j].date)
    ensures forall i :: 0 <= i < |closes| ==> LastOfWeek(candles, IsoWeek(closes[i].date)) == Some(closes[i])
    ensures forall i :: 0 <= i < |candles| ==> IsoWeek(DateOf(candles[i])) in WeeksOf(closes)
  {
    var weeks := WeekMap(candles);
    WeekTableUnique(weeks, WeekTable(candles));
    closes := Values(weeks);
    WeeklyCharacterization(candles);
  }

  // ------------------------------------------------------------------- align

  /** The benchmark close for `date` in a map collected from `bmk`: the last one wins. */
  function LastClose(bmk: seq<PeriodClose>, date: int): Option<real> {
    if bmk == [] then None
    else if bmk[|bmk| - 1].date == date then Some(bmk[|bmk| - 1].close)
    else LastClose(bmk[..|bmk| - 1], date)
  }

  /** One aligned point: instrument close, date, benchmark close. */
  datatype Joint = Joint(close: real, date: int, bmkClose: real)

  /** Whether an instrument period survives the join, and with which benchmark close. */
  function JoinOne(p: PeriodClose, bmk: seq<PeriodClose>): seq<Joint> {
    match LastClose(bmk, p.date)
    case Some(b) => if p.close > 0.0 && b > 0.0 then [Joint(p.close, p.date, b)] else []
    case None => []
  }

  /** The inner join on date, in instrument order, keeping strictly positive pairs. */
  function Joined(etf: seq<PeriodClose>, bmk: seq<PeriodClose>): (r: seq<Joint>)
    ensures |r| <= |etf|
    ensures forall k :: 0 <= k < |r| ==>
      r[k].close > 0.0 && r[k].bmkClose > 0.0 && LastClose(bmk, r[k].date) == Some(r[k].bmkClose)
  {
    if etf == [] then []
    else Joined(etf[..|etf| - 1], bmk) + JoinOne(etf[|etf| - 1], bmk)
  }

  /** Every aligned point is an instrument period, and every instrument period
      with a positive close whose date has a positive benchmark close is aligned. */
  lemma {:induction false} JoinedExactly(etf: seq<PeriodClose>, bmk: seq<PeriodClose>)
    ensures forall k :: 0 <= k < |Joined(etf, bmk)| ==>
      PeriodClose(Joined(etf, bmk)[k].date, Joined(etf, bmk)[k].close) in etf
    ensures forall p, b :: p in etf && p.close > 0.0 && LastClose(bmk, p.date) == Some(b) && b > 0.0 ==>
      Joint(p.close, p.date, b) in Joined(etf, bmk)
  {
    if etf != [] {
      var init := etf[..|etf| - 1];
      JoinedExactly(init, bmk);
      assert etf == init + [etf[|etf| - 1]];
      var r := Joined(etf, bmk);
      forall k | 0 <= k < |r| ensures PeriodClose(r[k].date, r[k].close) in etf {
        if k < |Joined(init, bmk)| {
          assert r[k] == Joined(init, bmk)[k];
        }
      }
    }
  }

  /** Ascending instrument dates give ascending aligned dates. */
  lemma {:induction false} JoinedAscending(etf: seq<PeriodClose>, bmk: seq<PeriodClose>)
    requires forall i, j :: 0 <= i < j < |etf| ==> etf[i].date < etf[j].date
    ensures forall i, j :: 0 <= i < j < |Joined(etf, bmk)| ==> Joined(etf, bmk)[i].date < Joined(etf, bmk)[j].date
  {
    if etf != [] {
      var init := etf[..|etf| - 1];
      JoinedAscending(init, bmk);
      JoinedExactly(init, bmk);
      var r := Joined(etf, bmk);
      var r0 := Joined(init, bmk);
      forall i, j | 0 <= i < j < |r| ensures r[i].date < r[j].date {
        if j >= |r0| {
          assert r[i] == r0[i];
          assert PeriodClose(r0[i].date, r0[i].close) in init;
          assert r[j].date == etf[|etf| - 1].date;
        } else {
          assert r[i] == r0[i] && r[j] == r0[j];
        }
      }
    }
  }

  /** `align`: collects the benchmark into a date-keyed map, then walks the
      instrument periods in order, keeping those whose date is in the map and
      whose two closes are strictly positive. */
  method Align(etf: seq<PeriodClose>, bmk: seq<PeriodClose>)
    returns (etfCloses: seq<real>, dates: seq<int>, bmkCloses: seq<real>)
    ensures |etfCloses| == |dates| == |bmkCloses| == |Joined(etf, bmk)|
    ensures forall k :: 0 <= k < |dates| ==>
      Joined(etf, bmk)[k] == Joint(etfCloses[k], dates[k], bmkCloses[k])
    ensures forall k :: 0 <= k < |dates| ==> etfCloses[k] > 0.0 && bmkCloses[k] > 0.0
  {
    var bmkMap: map<int, real> := map[];
    for i := 0 to |bmk|
      invariant forall d :: (d in bmkMap) == LastClose(bmk[..i], d).Some?
      invariant forall d :: d in bmkMap ==> LastClose(bmk[..i], d) == Some(bmkMap[d])
    {
      bmkMap := bmkMap[bmk[i].date := bmk[i].close];
      assert bmk[..i + 1][..i] == bmk[..i];
    }
    assert bmk[..|bmk|] == bmk;
    etfCloses, dates, bmkCloses := [], [], [];
    for i := 0 to |etf|
      invariant |etfCloses| == |dates| == |bmkCloses| == |Joined(etf[..i], bmk)|
      invariant forall k :: 0 <= k < |dates| ==>
        Joined(etf[..i], bmk)[k] == Joint(etfCloses[k], dates[k], bmkCloses[k])
    {
      var p := etf[i];
      assert etf[..i + 1][..i] == etf[..i];
      if p.date in bmkMap {
        var b := bmkMap[p.date];
        if p.close > 0.0 && b > 0.0 {
          etfCloses := etfCloses + [p.close];
          bmkCloses := bmkCloses + [b];
          dates := dates + [p.date];
        }
      }
    }
    assert etf[..|etf|] == etf;
  }

  // --------------------------------------------------------------------- sma

  function Sum(s: seq<real>): real {
    if s == [] then 0.0 else s[0] + Sum(s[1..])
  }

  function Mean(w: seq<real>): real
    requires |w| > 0
  {
    Sum(w) / |w| as real
  }

  lemma {:induction false} SumPositive(s: seq<real>)
    requires |s| > 0 && forall i :: 0 <= i < |s| ==> s[i] > 0.0
    ensures Sum(s) > 0.0
  {
    if |s| > 1 {
      SumPositive(s[1..]);
    }
  }

  lemma {:induction false} SumBounds(s: seq<real>, lo: real, hi: real)
    requires forall i :: 0 <= i < |s| ==> lo <= s[i] <= hi
    ensures |s| as real * lo <= Sum(s) <= |s| as real * hi
  {
    if s != [] {
      SumBounds(s[1..], lo, hi);
    }
  }

  /** `i.saturating_sub(period - 1)`: the first index of the window ending at `i`. */
  function WindowStart(i: nat, period: nat): (start: nat)
    requires period >= 1
    ensures start <= i && i + 1 - start == if i + 1 < period then i + 1 else period
  {
    if i >= period - 1 then i - (period - 1) else 0
  }

  /** `sma`: position `i` is the mean of `src[max(0, i - period + 1) ..= i]`, an
      expanding window at the start and a trailing window of `period` after. */
  function Sma(src: seq<real>, period: nat): (r: seq<real>)
    requires period >= 1
    ensures |r| == |src|
    ensures |src| > 0 ==> r[0] == src[0]
  {
    var r := seq(|src|, i requires 0 <= i < |src| => Mean(src[WindowStart(i, period)..i + 1]));
    if |src| > 0 then
      assert src[WindowStart(0, period)..1] == [src[0]];
      SumSingle(src[0]);
      assert r[0] == Mean([src[0]]);
      r
    else r
  }

  /** Each moving average lies between the least and the greatest value of its window. */
  lemma SmaBounded(src: seq<real>, period: nat, i: nat, lo: real, hi: real)
    requires period >= 1 && i < |src|
    requires forall j :: WindowStart(i, period) <= j <= i ==> lo <= src[j] <= hi
    ensures lo <= Sma(src, period)[i] <= hi
  {
    var start := WindowStart(i, period);
    var w := src[start..i + 1];
    forall k | 0 <= k < |w| ensures lo <= w[k] <= hi {
      assert w[k] == src[start + k];
    }
    SumBounds(w, lo, hi);
    assert Sma(src, period)[i] == Sum(w) / |w| as real;
    QuotientBounds(Sum(w), |w| as real, lo, hi);
  }

  lemma SumSingle(x: real)
    ensures Sum([x]) == x
  {
    assert [x][1..] == [];
  }

  lemma QuotientBounds(s: real, n: real, lo: real, hi: real)
    requires n > 0.0 && n * lo <= s <= n * hi
    ensures lo <= s / n <= hi
  {
    var q := s / n;
    assert (q - lo) * n == s - lo * n;
    assert (hi - q) * n == hi * n - s;
  }

  /** Moving averages of positive values are positive. */
  lemma SmaPositive(src: seq<real>, period: nat)
    requires period >= 1 && forall i :: 0 <= i < |src| ==> src[i] > 0.0
    ensures forall i :: 0 <= i < |src| ==> Sma(src, period)[i] > 0.0
  {
    forall i | 0 <= i < |src| ensures Sma(src, period)[i] > 0.0 {
      SumPositive(src[WindowStart(i, period)..i + 1]);
    }
  }

  /** The moving average of a constant series is that constant. */
  lemma SmaConstant(src: seq<real>, period: nat, c: real)
    requires period >= 1 && forall i :: 0 <= i < |src| ==> src[i] == c
    ensures forall i :: 0 <= i < |src| ==> Sma(src, period)[i] == c
  {
    forall i | 0 <= i < |src| ensures Sma(src, period)[i] == c {
      SmaBounded(src, period, i, c, c);
    }
  }

  // ------------------------------------------------------ RS-Ratio, RS-Momentum

  /** `rs[i] = etf_close[i] / bmk_close[i]`. */
  function Rs(etf: seq<real>, bmk: seq<real>): (rs: seq<real>)
    requires |etf| == |bmk| && forall i :: 0 <= i < |bmk| ==> bmk[i] != 0.0
    ensures |rs| == |etf| && forall i :: 0 <= i < |rs| ==> rs[i] * bmk[i] == etf[i]
  {
    seq(|etf|, i requires 0 <= i < |etf| => etf[i] / bmk[i])
  }

  /** `(s / m) * 100`, or exactly 100 where the denominator is zero. */
  function Normalise(s: seq<real>, m: seq<real>): (r: seq<real>)
    requires |s| == |m|
    ensures |r| == |s|
    ensures forall i :: 0 <= i < |s| && m[i] == 0.0 ==> r[i] == 100.0
    ensures forall i :: 0 <= i < |s| && m[i] != 0.0 ==> r[i] * m[i] == 100.0 * s[i]
  {
    seq(|s|, i requires 0 <= i < |s| => if m[i] != 0.0 then (s[i] / m[i]) * 100.0 else 100.0)
  }

  /** A value normalised against itself is exactly 100. */
  lemma NormaliseEqual(s: seq<real>, m: seq<real>, i: nat)
    requires |s| == |m| && i < |s| && s[i] == m[i]
    ensures Normalise(s, m)[i] == 100.0
  {
    if m[i] != 0.0 {
      assert s[i] / m[i] == 1.0;
    }
  }

  /** RS-Ratio: the smoothed ratio normalised against its own moving average. */
  function RsRatio(rs: seq<real>, period: nat): (r: seq<real>)
    requires period >= 1
    ensures |r| == |rs|
  {
    var smooth := Sma(rs, period);
    Normalise(smooth, Sma(smooth, period))
  }

  /** RS-Momentum: RS-Ratio normalised against its own moving average. */
  function RsMomentum(ratio: seq<real>, period: nat): (r: seq<real>)
    requires period >= 1
    ensures |r| == |ratio|
  {
    Normalise(ratio, Sma(ratio, period))
  }

  /** Positive closes give a positive price ratio. */
  lemma RsPositive(etf: seq<real>, bmk: seq<real>)
    requires |etf| == |bmk|
    requires forall i :: 0 <= i < |etf| ==> etf[i] > 0.0 && bmk[i] > 0.0
    ensures forall i :: 0 <= i < |etf| ==> Rs(etf, bmk)[i] > 0.0
  {
    var rs := Rs(etf, bmk);
    forall i | 0 <= i < |rs| ensures rs[i] > 0.0 {
      assert rs[i] * bmk[i] == etf[i];
    }
  }

  /** Against a positive denominator the quotient is taken, and is positive. */
  lemma NormalisePositive(s: seq<real>, m: seq<real>)
    requires |s| == |m|
    requires forall i :: 0 <= i < |s| ==> s[i] > 0.0 && m[i] > 0.0
    ensures forall i :: 0 <= i < |s| ==> Normalise(s, m)[i] == (s[i] / m[i]) * 100.0 && Normalise(s, m)[i] > 0.0
  {
    var r := Normalise(s, m);
    forall i | 0 <= i < |s| ensures r[i] == (s[i] / m[i]) * 100.0 && r[i] > 0.0 {
      assert r[i] * m[i] == 100.0 * s[i];
    }
  }

  /** With positive closes every denominator is positive, so neither fallback
      to 100 is taken and both indicators are positive quotients. */
  lemma NoFallback(etf: seq<real>, bmk: seq<real>, period: nat)
    requires period >= 1 && |etf| == |bmk|
    requires forall i :: 0 <= i < |etf| ==> etf[i] > 0.0 && bmk[i] > 0.0
    ensures var rs := Rs(etf, bmk);
      var smooth := Sma(rs, period);
      var ratio := RsRatio(rs, period);
      forall i :: 0 <= i < |etf| ==>
        && Sma(smooth, period)[i] > 0.0
        && ratio[i] == (smooth[i] / Sma(smooth, period)[i]) * 100.0
        && ratio[i] > 0.0
        && Sma(ratio, period)[i] > 0.0
        && RsMomentum(ratio, period)[i] == (ratio[i] / Sma(ratio, period)[i]) * 100.0
        && RsMomentum(ratio, period)[i] > 0.0
  {
    var rs := Rs(etf, bmk);
    RsPositive(etf, bmk);
    SmaPositive(rs, period);
    var smooth := Sma(rs, period);
    SmaPositive(smooth, period);
    NormalisePositive(smooth, Sma(smooth, period));
    var ratio := RsRatio(rs, period);
    SmaPositive(ratio, period);
    NormalisePositive(ratio, Sma(ratio, period));
  }

  /** A constant price ratio gives an RS-Ratio of exactly 100. */
  lemma RatioAtParity(rs: seq<real>, period: nat, c: real)
    requires period >= 1 && c > 0.0 && forall i :: 0 <= i < |rs| ==> rs[i] == c
    ensures forall i :: 0 <= i < |rs| ==> RsRatio(rs, period)[i] == 100.0
  {
    SmaConstant(rs, period, c);
    var smooth := Sma(rs, period);
    SmaConstant(smooth, period, c);
    var ratio := RsRatio(rs, period);
    assert ratio == Normalise(smooth, Sma(smooth, period));
    forall i | 0 <= i < |ratio| ensures ratio[i] == 100.0 {
      NormaliseEqual(smooth, Sma(smooth, period), i);
    }
  }

  /** An RS-Ratio of 100 throughout gives an RS-Momentum of exactly 100. */
  lemma MomentumAtParity(ratio: seq<real>, period: nat)
    requires period >= 1 && forall i :: 0 <= i < |ratio| ==> ratio[i] == 100.0
    ensures forall i :: 0 <= i < |ratio| ==> RsMomentum(ratio, period)[i] == 100.0
  {
    SmaConstant(ratio, period, 100.0);
    var mom := RsMomentum(ratio, period);
    forall i | 0 <= i < |mom| ensures mom[i] == 100.0 {
      NormaliseEqual(ratio, Sma(ratio, period), i);
    }
  }

  /** An instrument moving in lockstep with the benchmark sits at parity:
      RS-Ratio and RS-Momentum are exactly 100 everywhere. */
  lemma Parity(etf: seq<real>, bmk: seq<real>, period: nat, c: real)
    requires period >= 1 && |etf| == |bmk| && c > 0.0
    requires forall i :: 0 <= i < |etf| ==> bmk[i] > 0.0 && etf[i] == c * bmk[i]
    ensures forall i :: 0 <= i < |etf| ==> RsRatio(Rs(etf, bmk), period)[i] == 100.0
    ensures forall i :: 0 <= i < |etf| ==> RsMomentum(RsRatio(Rs(etf, bmk), period), period)[i] == 100.0
  {
    var rs := Rs(etf, bmk);
    forall i | 0 <= i < |rs| ensures rs[i] == c {
      assert rs[i] * bmk[i] == c * bmk[i];
    }
    RatioAtParity(rs, period, c);
    MomentumAtParity(RsRatio(rs, period), period);
  }

  // ---------------------------------------------------------------- rounding

  /** `f64::round`: to the nearest integer, halves away from zero. */
  function Round(x: real): (n: int)
    ensures -0.5 <= n as real - x <= 0.5
  {
    if x >= 0.0 then (x + 0.5).Floor else -((-x + 0.5).Floor)
  }

  /** `r3`: rounds to three decimal places. */
  function R3(v: real): (r: real)
    ensures -0.0005 <= r - v <= 0.0005
  {
    Round(v * 1000.0) as real / 1000.0
  }

  // ------------------------------------------------------------- compute_rrg

  /** `n.saturating_sub(k)`. */
  function SaturatingSub(n: nat, k: nat): nat {
    if n >= k then n - k else 0
  }

  function Min(a: int, b: int): int {
    if a <= b then a else b
  }

  const UsizeMax: nat := 0xFFFF_FFFF_FFFF_FFFF

  /** The query's `tail` and `history` fields are 64-bit `usize` values. */
  type Usize = x: nat | x <= UsizeMax

  /** `x + 1` in `usize` as a release build computes it: the largest value
      wraps around to 0. */
  function WrappingSucc(x: Usize): (r: Usize)
    ensures x < UsizeMax ==> r == x + 1
    ensures x == UsizeMax ==> r == 0
  {
    (x + 1) % (UsizeMax + 1)
  }

  /** The tail: the `tailLen` points before the last one (fewer when the
      series is shorter), oldest first. At the largest `tailLen` the
      wrapped `tail_len + 1` puts the start past the end: no points. */
  function Tail(ratio: seq<real>, momentum: seq<real>, tailLen: Usize): (r: seq<TailPoint>)
    requires |ratio| == |momentum| >= 1
    ensures |r| == if tailLen == UsizeMax then 0 else Min(tailLen, |ratio| - 1)
    ensures forall k :: 0 <= k < |r| ==>
      r[k] == TailPoint(R3(ratio[|ratio| - 1 - |r| + k]), R3(momentum[|ratio| - 1 - |r| + k]))
  {
    var n := |ratio|;
    var tailStart := SaturatingSub(n, WrappingSucc(tailLen));
    var tailEnd := SaturatingSub(n, 1);
    var len := if tailStart <= tailEnd then tailEnd - tailStart else 0;
    seq(len, k requires 0 <= k < len => TailPoint(R3(ratio[tailStart + k]), R3(momentum[tailStart + k])))
  }

  /** The history: the last `historyLen` RS-Ratio values with their dates, oldest first. */
  function History(dates: seq<int>, ratio: seq<real>, historyLen: nat): (r: seq<HistoryPoint>)
    requires |dates| == |ratio|
    ensures |r| == Min(historyLen, |ratio|)
    ensures forall k :: 0 <= k < |r| ==>
      r[k] == HistoryPoint(dates[|ratio| - |r| + k], R3(ratio[|ratio| - |r| + k]))
  {
    var n := |ratio|;
    var histStart := SaturatingSub(n, historyLen);
    seq(n - histStart, k requires 0 <= k < n - histStart => HistoryPoint(dates[histStart + k], R3(ratio[histStart + k])))
  }

  /** Resampling chosen by the timeframe: "daily" keeps one close per candle,
      anything else resamples to weeks. */
  function Resample(candles: seq<Candle>, timeframe: string): seq<PeriodClose> {
    if timeframe == "daily" then ToDaily(candles) else WeeklySeries(candles)
  }

  /** Smoothing period: 50 sessions for "daily", 10 weeks otherwise. */
  function SmaPeriod(timeframe: string): (p: nat)
    ensures p == (if timeframe == "daily" then 50 else 10)
  {
    match timeframe
    case "daily" => 50
    case _ => 10
  }

  /** The aligned series the indicators are computed on. */
  function AlignedFor(etfCandles: seq<Candle>, bmkCandles: seq<Candle>, timeframe: string): seq<Joint> {
    Joined(Resample(etfCandles, timeframe), Resample(bmkCandles, timeframe))
  }

  function EtfCloses(j: seq<Joint>): (r: seq<real>)
    ensures |r| == |j| && forall k :: 0 <= k < |j| ==> r[k] == j[k].close
  {
    seq(|j|, k requires 0 <= k < |j| => j[k].close)
  }

  function BmkCloses(j: seq<Joint>): (r: seq<real>)
    ensures |r| == |j| && forall k :: 0 <= k < |j| ==> r[k] == j[k].bmkClose
  {
    seq(|j|, k requires 0 <= k < |j| => j[k].bmkClose)
  }

  /** The RS-Ratio series of an aligned series. */
  function RatioSeries(j: seq<Joint>, period: nat): (r: seq<real>)
    requires period >= 1 && forall k :: 0 <= k < |j| ==> j[k].bmkClose > 0.0
    ensures |r| == |j|
  {
    RsRatio(Rs(EtfCloses(j), BmkCloses(j)), period)
  }

  function Dates(j: seq<Joint>): (r: seq<int>)
    ensures |r| == |j| && forall k :: 0 <= k < |j| ==> r[k] == j[k].date
  {
    seq(|j|, k requires 0 <= k < |j| => j[k].date)
  }

  /** The response built from the indicator series of at least one point:
      the upper-cased ticker, the last point rounded, the tail before it and
      the dated history up to it. */
  function Report(ticker: string, dates: seq<int>, ratio: seq<real>, momentum: seq<real>,
                  tailLen: Usize, historyLen: Usize): (resp: RrgResponse)
    requires |dates| == |ratio| == |momentum| >= 1
    ensures var n := |ratio|;
      && resp.ticker == Text.Upper(ticker)
      && resp.rsRatio == R3(ratio[n - 1])
      && resp.rsMomentum == R3(momentum[n - 1])
      && |resp.tail| == (if tailLen == UsizeMax then 0 else Min(tailLen, n - 1))
      && (forall k :: 0 <= k < |resp.tail| ==>
            resp.tail[k] == TailPoint(R3(ratio[n - 1 - |resp.tail| + k]), R3(momentum[n - 1 - |resp.tail| + k])))
      && |resp.rsHistory| == Min(historyLen, n)
      && (forall k :: 0 <= k < |resp.rsHistory| ==>
            resp.rsHistory[k] == HistoryPoint(dates[n - |resp.rsHistory| + k], R3(ratio[n - |resp.rsHistory| + k])))
  {
    RrgResponse(Text.Upper(ticker), R3(ratio[|ratio| - 1]), R3(momentum[|ratio| - 1]),
                Tail(ratio, momentum, tailLen), History(dates, ratio, historyLen))
  }

  /** The response `compute_rrg` gives for an aligned series. */
  function ReportFor(ticker: string, j: seq<Joint>, period: nat, tailLen: Usize, historyLen: Usize): RrgResponse
    requires period >= 1 && |j| >= 1 && forall k :: 0 <= k < |j| ==> j[k].bmkClose > 0.0
  {
    var ratio := RatioSeries(j, period);
    Report(ticker, Dates(j), ratio, RsMomentum(ratio, period), tailLen, historyLen)
  }

  /** The resampling step of `compute_rrg`. */
  method ResampleBy(candles: seq<Candle>, timeframe: string) returns (r: seq<PeriodClose>)
    ensures r == Resample(candles, timeframe)
    ensures timeframe != "daily" ==> forall i, j :: 0 <= i < j < |r| ==> r[i].date < r[j].date
  {
    if timeframe == "daily" {
      r := ToDaily(candles);
    } else {
      r := ToWeekly(candles);
    }
  }

  /** The indicator step of `compute_rrg`: price ratio, double smoothing,
      RS-Ratio, then RS-Momentum. */
  method Indicators(etfClose: seq<real>, bmkClose: seq<real>, period: nat)
    returns (rsRatio: seq<real>, rsMomentum: seq<real>)
    requires period >= 1 && |etfClose| == |bmkClose|
    requires forall i :: 0 <= i < |bmkClose| ==> bmkClose[i] > 0.0
    ensures rsRatio == RsRatio(Rs(etfClose, bmkClose), period)
    ensures rsMomentum == RsMomentum(rsRatio, period)
    ensures |rsRatio| == |rsMomentum| == |etfClose|
  {
    var rs := Rs(etfClose, bmkClose);
    var rsSmooth := Sma(rs, period);
    var rsSmoothSma := Sma(rsSmooth, period);
    rsRatio := Normalise(rsSmooth, rsSmoothSma);
    var rsRatioSma := Sma(rsRatio, period);
    rsMomentum := Normalise(rsRatio, rsRatioSma);
  }

  /** The last step of `compute_rrg`: the current point, the tail and the
      history, rounded. */
  method Respond(ticker: string, dates: seq<int>, rsRatio: seq<real>, rsMomentum: seq<real>,
                 tailLen: Usize, historyLen: Usize) returns (resp: RrgResponse)
    requires |dates| == |rsRatio| == |rsMomentum| >= 1
    ensures resp == Report(ticker, dates, rsRatio, rsMomentum, tailLen, historyLen)
  {
    var n := |rsRatio|;
    var currentRsRatio := R3(rsRatio[n - 1]);
    var currentRsMomentum := R3(rsMomentum[n - 1]);
    var tail := Tail(rsRatio, rsMomentum, tailLen);
    var rsHistory := History(dates, rsRatio, historyLen);
    resp := RrgResponse(Text.Upper(ticker), currentRsRatio, currentRsMomentum, tail, rsHistory);
  }

  /** `compute_rrg`: resample, align, give up below 20 aligned points, then
      report the last RS-Ratio/RS-Momentum, the `tail_len` points before the
      last one and the last `history_len` RS-Ratio values, all rounded. */
  method ComputeRrg(ticker: string, etfCandles: seq<Candle>, bmkCandles: seq<Candle>,
                    timeframe: string, tailLen: Usize, historyLen: Usize)
    returns (r: Option<RrgResponse>)
    ensures r.None? <==> |AlignedFor(etfCandles, bmkCandles, timeframe)| < 20
    ensures r.Some? ==>
      r.value == ReportFor(ticker, AlignedFor(etfCandles, bmkCandles, timeframe), SmaPeriod(timeframe), tailLen, historyLen)
  {
    var etfPeriods := ResampleBy(etfCandles, timeframe);
    var bmkPeriods := ResampleBy(bmkCandles, timeframe);
    ghost var j := Joined(etfPeriods, bmkPeriods);
    var etfClose, dates, bmkClose := Align(etfPeriods, bmkPeriods);
    var n := |etfClose|;
    if n < 20 {
      return None;
    }
    assert etfClose == EtfCloses(j) && bmkClose == BmkCloses(j);

    var period := SmaPeriod(timeframe);
    var rsRatio, rsMomentum := Indicators(etfClose, bmkClose, period);

    assert rsRatio == RatioSeries(j, period);
    assert dates == Dates(j);
    var resp := Respond(ticker, dates, rsRatio, rsMomentum, tailLen, historyLen);
    r := Some(resp);
  }
}
