/** src/store.rs: the `TickerType` text codec, and the three tables of the
    SQLite store as maps keyed by their primary keys — `performance` by
    (ticker, ticker type), `daily_candles` by (ticker, ds), `stocks` by
    ticker — with the upserts that write them and the filtered, ordered
    reads. The SQL engine's `ORDER BY` is modelled by sorted insertion of
    the matching rows; `is_upto_date` is `Util.IsUpToDate` with the clock
    and the market hours passed in. */
module Storage {
  import opened Wrappers
  import opened Domain
  import opened Seqs
  import Util

  // ------------------------------------------------------ the TickerType codec

  /** `Encode for TickerType`: the variant's name. */
  function EncodeTickerType(t: TickerType): (s: string)
    ensures s == "Sector" || s == "Industry" || s == "Stock"
  {
    match t
    case Sector => "Sector"
    case Industry => "Industry"
    case Stock => "Stock"
  }

  const UnknownTickerTypePrefix: string := "Unknown TickerType: "

  /** `Decode for TickerType`: the three names, anything else an error that
      quotes the text. */
  function DecodeTickerType(s: string): (r: Result<TickerType, string>)
    ensures r.Success? ==> EncodeTickerType(r.value) == s
    ensures r.Failure? ==> r.error == UnknownTickerTypePrefix + s
  {
    if s == "Sector" then Success(TickerType.Sector)
    else if s == "Industry" then Success(TickerType.Industry)
    else if s == "Stock" then Success(TickerType.Stock)
    else Failure(UnknownTickerTypePrefix + s)
  }

  lemma DecodeEncode(t: TickerType)
    ensures DecodeTickerType(EncodeTickerType(t)) == Success(t)
  {
  }

  /** Distinct ticker types are stored as distinct text. */
  lemma EncodeInjective(a: TickerType, b: TickerType)
    ensures EncodeTickerType(a) == EncodeTickerType(b) ==> a == b
  {
  }

  /** Decoding fails exactly on the strings no ticker type encodes to. */
  lemma DecodeFailsOnOthers(s: string)
    ensures DecodeTickerType(s).Failure? <==> forall t :: EncodeTickerType(t) != s
  {
    if DecodeTickerType(s).Failure? {
      forall t ensures EncodeTickerType(t) != s {
        if EncodeTickerType(t) == s {
          DecodeEncode(t);
        }
      }
    }
  }

  // ----------------------------------------------------------- row orderings

  /** `ORDER BY ticker_type, ticker` on the stored text of the type. */
  predicate PerfKeyLt(a: (TickerType, string), b: (TickerType, string)) {
    || StrLt(EncodeTickerType(a.0), EncodeTickerType(b.0))
    || (a.0 == b.0 && StrLt(a.1, b.1))
  }

  lemma PerfKeyLtIsStrictTotalOrder()
    ensures StrictTotalOrder(PerfKeyLt)
  {
    StrLtIsStrictTotalOrder();
    forall a: (TickerType, string), b: (TickerType, string) | a.0 != b.0
      ensures EncodeTickerType(a.0) != EncodeTickerType(b.0)
    {
      EncodeInjective(a.0, b.0);
    }
  }

  predicate IntLt(a: int, b: int) { a < b }

  lemma IntLtIsStrictTotalOrder()
    ensures StrictTotalOrder(IntLt)
  {
  }

  function PerfKey(p: Performance): (TickerType, string) { (p.tickerType, p.ticker) }
  function PerfTicker(p: Performance): string { p.ticker }
  function StockKey(s: Stock): string { s.ticker }
  function CandleDs(c: Candle): int { c.timestamp }

  // ------------------------------------------------------------------ upserts

  /** The table after upserting `rows` in order: each key ends with the last
      row written for it. */
  function Upserted<K, V>(table: map<K, V>, rows: seq<V>, key: V -> K): map<K, V> {
    if rows == [] then table
    else Upserted(table, rows[..|rows| - 1], key)[key(rows[|rows| - 1]) := rows[|rows| - 1]]
  }

  /** The keys of an upsert are the old keys and the keys written; a written
      key holds the last row with that key, any other keeps its old row. */
  lemma {:induction false} UpsertedLastWins<K, V>(table: map<K, V>, rows: seq<V>, key: V -> K, k: K)
    ensures k in Upserted(table, rows, key) <==> k in table || exists i :: 0 <= i < |rows| && key(rows[i]) == k
    ensures forall i :: 0 <= i < |rows| && key(rows[i]) == k && (forall j :: i < j < |rows| ==> key(rows[j]) != k) ==>
      Upserted(table, rows, key)[k] == rows[i]
    ensures (forall i :: 0 <= i < |rows| ==> key(rows[i]) != k) && k in table ==> Upserted(table, rows, key)[k] == table[k]
  {
    if rows != [] {
      var n := |rows| - 1;
      UpsertedLastWins(table, rows[..n], key, k);
      if key(rows[n]) != k {
        forall i | 0 <= i < |rows[..n]| ensures rows[..n][i] == rows[i] { }
        if exists i :: 0 <= i < |rows| && key(rows[i]) == k {
          var i :| 0 <= i < |rows| && key(rows[i]) == k;
          assert rows[..n][i] == rows[i];
        }
      }
    }
  }

  /** Upserting two batches one after the other is upserting their concatenation. */
  lemma {:induction false} UpsertedAppend<K, V>(table: map<K, V>, a: seq<V>, b: seq<V>, key: V -> K)
    ensures Upserted(table, a + b, key) == Upserted(Upserted(table, a, key), b, key)
    decreases |b|
  {
    if b == [] {
      assert a + b == a;
    } else {
      var n := |b| - 1;
      assert (a + b)[..|a + b| - 1] == a + b[..n];
      UpsertedAppend(table, a, b[..n], key);
    }
  }

  /** Where a batch writes a key, the starting table does not matter. */
  lemma {:induction false} UpsertedFrom<K, V>(t1: map<K, V>, t2: map<K, V>, rows: seq<V>, key: V -> K, k: K)
    requires exists i :: 0 <= i < |rows| && key(rows[i]) == k
    ensures k in Upserted(t1, rows, key) && k in Upserted(t2, rows, key)
    ensures Upserted(t1, rows, key)[k] == Upserted(t2, rows, key)[k]
  {
    var n := |rows| - 1;
    if key(rows[n]) != k {
      var i :| 0 <= i < |rows| && key(rows[i]) == k;
      assert rows[..n][i] == rows[i];
      UpsertedFrom(t1, t2, rows[..n], key, k);
    }
  }

  /** Every row of a table is stored under its own key. */
  ghost predicate Keyed<K, V>(table: map<K, V>, key: V -> K) {
    forall k :: k in table ==> key(table[k]) == k
  }

  lemma {:induction false} UpsertedKeyed<K, V>(table: map<K, V>, rows: seq<V>, key: V -> K)
    requires Keyed(table, key)
    ensures Keyed(Upserted(table, rows, key), key)
  {
    if rows != [] {
      UpsertedKeyed(table, rows[..|rows| - 1], key);
    }
  }

  // ----------------------------------------------------------------- the store

  /** The database: three tables. Stocks carry their ticker as key; candle
      keys pair the ticker with the candle's `ds`. */
  class Store {
    var stocks: map<string, Stock>
    var performances: map<(TickerType, string), Performance>
    var candles: map<(string, int), Candle>

    ghost predicate Valid()
      reads this
    {
      && (forall t :: t in stocks ==> stocks[t].ticker == t)
      && Keyed(performances, PerfKey)
      && (forall k :: k in candles ==> candles[k].timestamp == k.1)
    }

    constructor ()
      ensures Valid()
      ensures stocks == map[] && performances == map[] && candles == map[]
    {
      stocks := map[];
      performances := map[];
      candles := map[];
    }

    /** `get_stock`: the row stored under the ticker, if any. */
    method GetStock(ticker: string) returns (r: Option<Stock>)
      requires Valid()
      ensures r.Some? <==> ticker in stocks
      ensures r.Some? ==> r.value == stocks[ticker] && r.value.ticker == ticker
    {
      if ticker in stocks {
        r := Some(stocks[ticker]);
      } else {
        r := None;
      }
    }

    /** `add_stocks`: an upsert per stock, keyed by ticker. */
    method AddStocks(batch: seq<Stock>)
      requires Valid()
      modifies this
      ensures Valid()
      ensures stocks == Upserted(old(stocks), batch, StockKey)
      ensures performances == old(performances) && candles == old(candles)
    {
      for i := 0 to |batch|
        invariant Valid()
        invariant stocks == Upserted(old(stocks), batch[..i], StockKey)
        invariant performances == old(performances) && candles == old(candles)
      {
        assert batch[..i + 1][..i] == batch[..i];
        stocks := stocks[batch[i].ticker := batch[i]];
      }
      assert batch[..|batch|] == batch;
    }

    /** `save_performances`: an upsert per row, keyed by (ticker, ticker type). */
    method SavePerformances(perfs: seq<Performance>)
      requires Valid()
      modifies this
      ensures Valid()
      ensures performances == Upserted(old(performances), perfs, PerfKey)
      ensures stocks == old(stocks) && candles == old(candles)
    {
      for i := 0 to |perfs|
        invariant Valid()
        invariant performances == Upserted(old(performances), perfs[..i], PerfKey)
        invariant stocks == old(stocks) && candles == old(candles)
      {
        assert perfs[..i + 1][..i] == perfs[..i];
        performances := performances[PerfKey(perfs[i]) := perfs[i]];
      }
      assert perfs[..|perfs|] == perfs;
    }

    /** `save_candles`: an upsert per candle, keyed by (ticker, ds). */
    method SaveCandles(ticker: string, batch: seq<Candle>)
      requires Valid()
      modifies this
      ensures Valid()
      ensures candles == Upserted(old(candles), batch, (c: Candle) => (ticker, c.timestamp))
      ensures stocks == old(stocks) && performances == old(performances)
    {
      for i := 0 to |batch|
        invariant Valid()
        invariant candles == Upserted(old(candles), batch[..i], (c: Candle) => (ticker, c.timestamp))
        invariant stocks == old(stocks) && performances == old(performances)
      {
        assert batch[..i + 1][..i] == batch[..i];
        candles := candles[(ticker, batch[i].timestamp) := batch[i]];
      }
      assert batch[..|batch|] == batch;
    }

    /** `get_performance`: the row for (ticker, type) when it is up to date;
        a stale row reads as absent. */
    method GetPerformance(ticker: string, tickerType: TickerType, now: int, hours: Util.MarketHours)
      returns (r: Option<Performance>)
      requires Valid()
      ensures r.Some? <==> ((tickerType, ticker) in performances
                            && Util.UpToDate(performances[(tickerType, ticker)].lastUpdated, now, hours))
      ensures r.Some? ==> r.value == performances[(tickerType, ticker)]
                          && r.value.ticker == ticker && r.value.tickerType == tickerType
    {
      r := None;
      if (tickerType, ticker) in performances {
        var perf := performances[(tickerType, ticker)];
        var upToDate := Util.IsUpToDate(perf.lastUpdated, now, hours);
        if upToDate {
          r := Some(perf);
        }
      }
    }

    /** The rows of `SELECT ... FROM performance [WHERE ticker_type = $1]
        ORDER BY ...`: every row whose type passes `wanted`, strictly
        ascending in `lt` of `key`. */
    method QueryPerformances<K(!new)>(wanted: TickerType -> bool, key: Performance -> K, lt: (K, K) -> bool)
      returns (rows: seq<Performance>)
      requires Valid()
      requires StrictTotalOrder(lt)
      requires forall a, b :: (a in performances && b in performances && wanted(a.0) && wanted(b.0)
                               && key(performances[a]) == key(performances[b])) ==> a == b
      ensures Ascending(rows, key, lt)
      ensures forall p :: p in rows <==> p in performances.Values && wanted(p.tickerType)
    {
      rows := OrderedRows(performances, PerfKey, (k: (TickerType, string)) => wanted(k.0), key, lt);
      forall p | p in performances.Values && wanted(p.tickerType) ensures p in rows {
        var k :| k in performances && performances[k] == p;
      }
    }

    /** Keeps the up-to-date rows, in order (the `filter` of `is_upto_date`). */
    static method KeepUpToDate<K>(rows: seq<Performance>, key: Performance -> K, lt: (K, K) -> bool,
                                  now: int, hours: Util.MarketHours)
      returns (r: seq<Performance>)
      requires Ascending(rows, key, lt)
      ensures Ascending(r, key, lt)
      ensures forall p :: p in r <==> p in rows && Util.UpToDate(p.lastUpdated, now, hours)
    {
      r := [];
      for i := 0 to |rows|
        invariant Ascending(r, key, lt)
        invariant forall p :: p in r <==> p in rows[..i] && Util.UpToDate(p.lastUpdated, now, hours)
      {
        var upToDate := Util.IsUpToDate(rows[i].lastUpdated, now, hours);
        if upToDate {
          forall j | 0 <= j < |r| ensures lt(key(r[j]), key(rows[i])) {
            assert r[j] in rows[..i];
          }
          r := r + [rows[i]];
        }
        assert rows[..i + 1] == rows[..i] + [rows[i]];
      }
      assert rows[..|rows|] == rows;
    }

    /** `get_all_performances`: every up-to-date row, ordered by ticker type
        (as stored text), then ticker. */
    method GetAllPerformances(now: int, hours: Util.MarketHours) returns (r: seq<Performance>)
      requires Valid()
      ensures Ascending(r, PerfKey, PerfKeyLt)
      ensures forall p :: p in r <==> p in performances.Values && Util.UpToDate(p.lastUpdated, now, hours)
    {
      PerfKeyLtIsStrictTotalOrder();
      var rows := QueryPerformances(_ => true, PerfKey, PerfKeyLt);
      r := KeepUpToDate(rows, PerfKey, PerfKeyLt, now, hours);
    }

    /** `get_performances_by_type`: the up-to-date rows of one type, ordered
        by ticker. */
    method GetPerformancesByType(tickerType: TickerType, now: int, hours: Util.MarketHours)
      returns (r: seq<Performance>)
      requires Valid()
      ensures Ascending(r, PerfTicker, StrLt)
      ensures forall p :: p in r <==> p in performances.Values && p.tickerType == tickerType
                                      && Util.UpToDate(p.lastUpdated, now, hours)
    {
      StrLtIsStrictTotalOrder();
      var rows := QueryPerformances(t => t == tickerType, PerfTicker, StrLt);
      r := KeepUpToDate(rows, PerfTicker, StrLt, now, hours);
    }

    /** `get_candles`: that ticker's candles from two 365-day years before
        `now` on, ascending by ds. */
    method GetCandles(ticker: string, now: int) returns (r: seq<Candle>)
      requires Valid()
      ensures Ascending(r, CandleDs, IntLt)
      ensures forall c :: c in r <==> (ticker, c.timestamp) in candles && candles[(ticker, c.timestamp)] == c
                                       && c.timestamp >= now - 2 * 365 * SecondsPerDay
    {
      IntLtIsStrictTotalOrder();
      var cutoff := now - 2 * 365 * SecondsPerDay;
      r := OrderedRows(candles, (c: Candle) => (ticker, c.timestamp), (k: (string, int)) => k.0 == ticker && k.1 >= cutoff, CandleDs, IntLt);
    }
  }

  /** Reading back after saving: the row written last for its (ticker, type)
      key is the row stored under that key, whatever the table held before. */
  lemma SavedThenRead(table: map<(TickerType, string), Performance>, perfs: seq<Performance>, i: nat)
    requires i < |perfs|
    requires forall j :: i < j < |perfs| ==> PerfKey(perfs[j]) != PerfKey(perfs[i])
    ensures PerfKey(perfs[i]) in Upserted(table, perfs, PerfKey)
    ensures Upserted(table, perfs, PerfKey)[PerfKey(perfs[i])] == perfs[i]
  {
    UpsertedLastWins(table, perfs, PerfKey, PerfKey(perfs[i]));
  }
}
