/** The TradingView manager: serves sector and industry performance from the
    store when it holds fresh rows and otherwise from a fresh fetch, and
    merges the top-stock pages fetched for several time frames. The browser
    is not modelled: what a fetch returns is a parameter. */
module TvManager {
  import opened Wrappers
  import opened Domain
  import opened Seqs
  import opened Storage
  import Util

  /** What one time frame's page yields: its stocks and their performance rows. */
  datatype Batch = Batch(stocks: seq<Stock>, perfs: seq<Performance>)

  function BatchStocks(b: Batch): seq<Stock> { b.stocks }
  function BatchPerfs(b: Batch): seq<Performance> { b.perfs }

  /** The index of the first failed fetch, or the number of fetches when none failed. */
  function FirstFailure(fetched: seq<Result<Batch, string>>): (f: nat)
    ensures f <= |fetched|
    ensures forall j :: 0 <= j < f ==> fetched[j].Success?
    ensures f < |fetched| ==> fetched[f].Failure?
  {
    if fetched == [] || fetched[0].Failure? then 0 else 1 + FirstFailure(fetched[1..])
  }

  /** The batches of a run of successful fetches, in order. */
  function Batches(fetched: seq<Result<Batch, string>>): (bs: seq<Batch>)
    requires forall j :: 0 <= j < |fetched| ==> fetched[j].Success?
    ensures |bs| == |fetched|
    ensures forall j :: 0 <= j < |fetched| ==> bs[j] == fetched[j].value
  {
    if fetched == [] then [] else Batches(fetched[..|fetched| - 1]) + [fetched[|fetched| - 1].value]
  }

  /** The batches fetched before the first failure. */
  function Done(fetched: seq<Result<Batch, string>>): (bs: seq<Batch>)
    ensures |bs| == FirstFailure(fetched)
    ensures forall j :: 0 <= j < |bs| ==> bs[j] == fetched[j].value
  {
    Batches(fetched[..FirstFailure(fetched)])
  }

  /** The merged result of a run of batches: the last row seen for each ticker. */
  function MergedStocks(bs: seq<Batch>): map<string, Stock> {
    Upserted(map[], FlatMap(bs, BatchStocks), StockKey)
  }

  function MergedPerfs(bs: seq<Batch>): map<string, Performance> {
    Upserted(map[], FlatMap(bs, BatchPerfs), PerfTicker)
  }

  /** One `HashMap::insert` per row, in order. */
  method InsertAll<K, V>(m: map<K, V>, rows: seq<V>, key: V -> K) returns (r: map<K, V>)
    ensures r == Upserted(m, rows, key)
  {
    r := m;
    for i := 0 to |rows|
      invariant r == Upserted(m, rows[..i], key)
    {
      assert rows[..i + 1][..i] == rows[..i];
      r := r[key(rows[i]) := rows[i]];
    }
    assert rows[..|rows|] == rows;
  }

  /** Where `fetch_stocks` stands after the batches `done`: the two maps
      merge them, and the store tables upsert them onto the starting ones. */
  ghost predicate Progress(done: seq<Batch>, stocksMap: map<string, Stock>, perfMap: map<string, Performance>,
                           stocks0: map<string, Stock>, perfs0: map<(TickerType, string), Performance>,
                           stocks: map<string, Stock>, perfs: map<(TickerType, string), Performance>)
  {
    && stocksMap == MergedStocks(done) && perfMap == MergedPerfs(done)
    && stocks == Upserted(stocks0, FlatMap(done, BatchStocks), StockKey)
    && perfs == Upserted(perfs0, FlatMap(done, BatchPerfs), PerfKey)
  }

  /** Appending one successful fetch extends the batches by its value. */
  lemma BatchesSnoc(fetched: seq<Result<Batch, string>>, i: nat)
    requires i < |fetched|
    requires forall j :: 0 <= j <= i ==> fetched[j].Success?
    ensures Batches(fetched[..i + 1]) == Batches(fetched[..i]) + [fetched[i].value]
  {
    assert fetched[..i + 1][..i] == fetched[..i];
  }

  /** Merging one more batch into the maps and the store upserts its rows. */
  lemma MergeSnoc<K, V>(m: map<K, V>, bs: seq<Batch>, b: Batch, f: Batch -> seq<V>, key: V -> K)
    ensures Upserted(m, FlatMap(bs + [b], f), key) == Upserted(Upserted(m, FlatMap(bs, f), key), f(b), key)
  {
    FlatMapAppend(bs, [b], f);
    assert FlatMap([b], f) == f(b) + [];
    assert f(b) + [] == f(b);
    UpsertedAppend(m, FlatMap(bs, f), f(b), key);
  }

  /** A map whose every row sits under its own key lists as rows ascending by key. */
  method SortedValues<V>(m: map<string, V>, key: V -> string) returns (rows: seq<V>)
    requires Keyed(m, key)
    ensures Ascending(rows, key, StrLt)
    ensures forall v :: v in rows <==> key(v) in m && m[key(v)] == v
  {
    StrLtIsStrictTotalOrder();
    rows := OrderedRows(m, key, (k: string) => true, key, StrLt);
  }

  class Manager {
    const store: Store

    constructor (store: Store)
      ensures this.store == store
    {
      this.store := store;
    }

    /** `fetch_stocks`: fetch each time frame in turn, saving its stocks and
        performance rows before the next; the first failed fetch ends the
        run with its error, keeping what earlier frames saved. On success the
        stocks and the rows, the last one seen per ticker, come back sorted
        by ticker. */
    static method FetchStocks(store: Store, fetched: seq<Result<Batch, string>>)
      returns (r: Result<(seq<Stock>, seq<Performance>), string>)
      requires store.Valid()
      modifies store
      ensures store.Valid()
      ensures r.Failure? <==> FirstFailure(fetched) < |fetched|
      ensures r.Failure? ==> r.error == fetched[FirstFailure(fetched)].error
      ensures store.stocks == Upserted(old(store.stocks), FlatMap(Done(fetched), BatchStocks), StockKey)
      ensures store.performances == Upserted(old(store.performances), FlatMap(Done(fetched), BatchPerfs), PerfKey)
      ensures store.candles == old(store.candles)
      ensures r.Success? ==> var ms := MergedStocks(Done(fetched));
        && Ascending(r.value.0, StockKey, StrLt)
        && forall s :: s in r.value.0 <==> StockKey(s) in ms && ms[StockKey(s)] == s
      ensures r.Success? ==> var mp := MergedPerfs(Done(fetched));
        && Ascending(r.value.1, PerfTicker, StrLt)
        && forall p :: p in r.value.1 <==> PerfTicker(p) in mp && mp[PerfTicker(p)] == p
    {
      var stocksMap: map<string, Stock> := map[];
      var perfMap: map<string, Performance> := map[];
      for i := 0 to |fetched|
        invariant forall j :: 0 <= j < i ==> fetched[j].Success?
        invariant store.Valid()
        invariant Progress(Batches(fetched[..i]), stocksMap, perfMap, old(store.stocks), old(store.performances),
                           store.stocks, store.performances)
        invariant store.candles == old(store.candles)
      {
        if fetched[i].Failure? {
          assert FirstFailure(fetched) == i;
          return Failure(fetched[i].error);
        }
        BatchesSnoc(fetched, i);
        stocksMap, perfMap := SaveFrame(store, Batches(fetched[..i]), fetched[i].value, stocksMap, perfMap,
                                        old(store.stocks), old(store.performances));
      }
      var stocks, perfs := Listed(Done(fetched), stocksMap, perfMap);
      r := Success((stocks, perfs));
    }

    /** The end of `fetch_stocks`: both maps' values, sorted by ticker. */
    static method Listed(ghost bs: seq<Batch>, stocksMap: map<string, Stock>, perfMap: map<string, Performance>)
      returns (stocks: seq<Stock>, perfs: seq<Performance>)
      requires stocksMap == MergedStocks(bs) && perfMap == MergedPerfs(bs)
      ensures Ascending(stocks, StockKey, StrLt)
      ensures forall s :: s in stocks <==> StockKey(s) in stocksMap && stocksMap[StockKey(s)] == s
      ensures Ascending(perfs, PerfTicker, StrLt)
      ensures forall p :: p in perfs <==> PerfTicker(p) in perfMap && perfMap[PerfTicker(p)] == p
    {
      UpsertedKeyed(map[], FlatMap(bs, BatchStocks), StockKey);
      UpsertedKeyed(map[], FlatMap(bs, BatchPerfs), PerfTicker);
      stocks := SortedValues(stocksMap, StockKey);
      perfs := SortedValues(perfMap, PerfTicker);
    }

    /** One pass of `fetch_stocks`'s loop: save the frame's stocks and
        rows, then insert them into the two maps. */
    static method SaveFrame(store: Store, ghost done: seq<Batch>, batch: Batch,
                            stocksMap: map<string, Stock>, perfMap: map<string, Performance>,
                            ghost stocks0: map<string, Stock>,
                            ghost perfs0: map<(TickerType, string), Performance>)
      returns (sm: map<string, Stock>, pm: map<string, Performance>)
      requires store.Valid()
      requires Progress(done, stocksMap, perfMap, stocks0, perfs0, store.stocks, store.performances)
      modifies store
      ensures store.Valid()
      ensures Progress(done + [batch], sm, pm, stocks0, perfs0, store.stocks, store.performances)
      ensures store.candles == old(store.candles)
    {
      store.AddStocks(batch.stocks);
      store.SavePerformances(batch.perfs);
      sm := InsertAll(stocksMap, batch.stocks, StockKey);
      pm := InsertAll(perfMap, batch.perfs, PerfTicker);
      MergeSnoc(stocks0, done, batch, BatchStocks, StockKey);
      MergeSnoc(perfs0, done, batch, BatchPerfs, PerfKey);
      MergeSnoc(map[], done, batch, BatchStocks, StockKey);
      MergeSnoc(map[], done, batch, BatchPerfs, PerfTicker);
    }

    /** Shared shape of `fetch_sectors` and `fetch_industries`: the store's
        fresh rows of that type when there are any, unchanged store; otherwise
        the fetched rows, saved first, or the fetch's error. */
    method CachedOrFetched(tickerType: TickerType, fetched: Result<seq<Performance>, string>,
                           now: int, hours: Util.MarketHours)
      returns (r: Result<seq<Performance>, string>)
      requires store.Valid()
      modifies store
      ensures store.Valid()
      ensures HasFresh(old(store.performances), tickerType, now, hours) ==>
        && r.Success? && r.value != []
        && Ascending(r.value, PerfTicker, StrLt)
        && (forall p :: p in r.value <==> IsFresh(old(store.performances), tickerType, now, hours, p))
        && unchanged(store)
      ensures !HasFresh(old(store.performances), tickerType, now, hours) ==>
        && r == fetched
        && store.performances == (if fetched.Success? then Upserted(old(store.performances), fetched.value, PerfKey)
                                  else old(store.performances))
        && store.stocks == old(store.stocks) && store.candles == old(store.candles)
    {
      var cached := store.GetPerformancesByType(tickerType, now, hours);
      if cached != [] {
        assert IsFresh(store.performances, tickerType, now, hours, cached[0]);
        return Success(cached);
      }
      if fetched.Failure? {
        return fetched;
      }
      store.SavePerformances(fetched.value);
      r := fetched;
    }

    /** `fetch_sectors`. */
    method FetchSectors(fetched: Result<seq<Performance>, string>, now: int, hours: Util.MarketHours)
      returns (r: Result<seq<Performance>, string>)
      requires store.Valid()
      modifies store
      ensures store.Valid()
      ensures HasFresh(old(store.performances), Sector, now, hours) ==>
        && r.Success? && r.value != []
        && Ascending(r.value, PerfTicker, StrLt)
        && (forall p :: p in r.value <==> IsFresh(old(store.performances), Sector, now, hours, p))
        && unchanged(store)
      ensures !HasFresh(old(store.performances), Sector, now, hours) ==>
        && r == fetched
        && store.performances == (if fetched.Success? then Upserted(old(store.performances), fetched.value, PerfKey)
                                  else old(store.performances))
        && store.stocks == old(store.stocks) && store.candles == old(store.candles)
    {
      r := CachedOrFetched(Sector, fetched, now, hours);
    }

    /** `fetch_industries`. */
    method FetchIndustries(fetched: Result<seq<Performance>, string>, now: int, hours: Util.MarketHours)
      returns (r: Result<seq<Performance>, string>)
      requires store.Valid()
      modifies store
      ensures store.Valid()
      ensures HasFresh(old(store.performances), Industry, now, hours) ==>
        && r.Success? && r.value != []
        && Ascending(r.value, PerfTicker, StrLt)
        && (forall p :: p in r.value <==> IsFresh(old(store.performances), Industry, now, hours, p))
        && unchanged(store)
      ensures !HasFresh(old(store.performances), Industry, now, hours) ==>
        && r == fetched
        && store.performances == (if fetched.Success? then Upserted(old(store.performances), fetched.value, PerfKey)
                                  else old(store.performances))
        && store.stocks == old(store.stocks) && store.candles == old(store.candles)
    {
      r := CachedOrFetched(Industry, fetched, now, hours);
    }
  }

  /** A stored row of the given type that is up to date at `now`. */
  predicate IsFresh(table: map<(TickerType, string), Performance>, tickerType: TickerType,
                    now: int, hours: Util.MarketHours, p: Performance)
  {
    p in table.Values && p.tickerType == tickerType && Util.UpToDate(p.lastUpdated, now, hours)
  }

  ghost predicate HasFresh(table: map<(TickerType, string), Performance>, tickerType: TickerType,
                           now: int, hours: Util.MarketHours)
  {
    exists p :: IsFresh(table, tickerType, now, hours, p)
  }

  /** The merged stocks hold exactly the tickers some time frame listed. */
  lemma MergedStocksTickers(bs: seq<Batch>, t: string)
    ensures t in MergedStocks(bs) <==> exists k, s :: 0 <= k < |bs| && s in bs[k].stocks && s.ticker == t
  {
    var rows := FlatMap(bs, BatchStocks);
    UpsertedLastWins(map[], rows, StockKey, t);
    if t in MergedStocks(bs) {
      var i :| 0 <= i < |rows| && StockKey(rows[i]) == t;
      FlatMapMember(bs, BatchStocks, rows[i]);
    }
    if exists k, s :: 0 <= k < |bs| && s in bs[k].stocks && s.ticker == t {
      var k, s :| 0 <= k < |bs| && s in bs[k].stocks && s.ticker == t;
      FlatMapMember(bs, BatchStocks, s);
      var i :| 0 <= i < |rows| && rows[i] == s;
    }
  }

  /** A ticker's merged stock is the one from the last time frame that listed
      it, exactly as that frame alone would give it. */
  lemma MergedStocksLastFrameWins(bs: seq<Batch>, k: nat, t: string)
    requires k < |bs|
    requires exists s :: s in bs[k].stocks && s.ticker == t
    requires forall j, s :: k < j < |bs| && s in bs[j].stocks ==> s.ticker != t
    ensures t in MergedStocks(bs) && t in MergedStocks([bs[k]])
    ensures MergedStocks(bs)[t] == MergedStocks([bs[k]])[t]
  {
    var before, after := bs[..k], bs[k + 1..];
    assert bs == before + [bs[k]] + after;
    FlatMapAppend(before + [bs[k]], after, BatchStocks);
    FlatMapAppend(before, [bs[k]], BatchStocks);
    assert FlatMap([bs[k]], BatchStocks) == bs[k].stocks + [];
    assert bs[k].stocks + [] == bs[k].stocks;
    var pre := FlatMap(before, BatchStocks);
    var post := FlatMap(after, BatchStocks);
    UpsertedAppend(map[], pre + bs[k].stocks, post, StockKey);
    UpsertedAppend(map[], pre, bs[k].stocks, StockKey);
    var s :| s in bs[k].stocks && s.ticker == t;
    var i :| 0 <= i < |bs[k].stocks| && bs[k].stocks[i] == s;
    UpsertedFrom(Upserted(map[], pre, StockKey), map[], bs[k].stocks, StockKey, t);
    var mid := Upserted(Upserted(map[], pre, StockKey), bs[k].stocks, StockKey);
    UpsertedLastWins(mid, post, StockKey, t);
    forall j | 0 <= j < |post| ensures StockKey(post[j]) != t {
      FlatMapMember(after, BatchStocks, post[j]);
      var a :| 0 <= a < |after| && post[j] in after[a].stocks;
      assert after[a] == bs[k + 1 + a];
    }
  }

  /** The merged performance rows hold exactly the tickers some time frame
      listed; they are keyed by ticker alone, so two rows of different types
      with the same ticker collide. */
  lemma MergedPerfsTickers(bs: seq<Batch>, t: string)
    ensures t in MergedPerfs(bs) <==> exists k, p :: 0 <= k < |bs| && p in bs[k].perfs && p.ticker == t
  {
    var rows := FlatMap(bs, BatchPerfs);
    UpsertedLastWins(map[], rows, PerfTicker, t);
    if t in MergedPerfs(bs) {
      var i :| 0 <= i < |rows| && PerfTicker(rows[i]) == t;
      FlatMapMember(bs, BatchPerfs, rows[i]);
    }
    if exists k, p :: 0 <= k < |bs| && p in bs[k].perfs && p.ticker == t {
      var k, p :| 0 <= k < |bs| && p in bs[k].perfs && p.ticker == t;
      FlatMapMember(bs, BatchPerfs, p);
      var i :| 0 <= i < |rows| && rows[i] == p;
    }
  }
}
