/** The top-stocks screen (src/tv/top_stocks_fetcher.rs): after the page is
    sorted, each table row's `data-rowkey` ("EXCHANGE:SYMBOL") yields a
    ticker, until `count` tickers are collected. The page itself is not
    modelled: the rows' keys are a parameter, `None` for a row without the
    attribute. */
module TopStocksFetcher {
  import opened Wrappers
  import opened Text

  /** The ticker a row key names: the text after its first ':', trimmed and
      upper-cased; nothing for a missing key or one without ':'. */
  function TickerOfKey(key: Option<string>): (r: Option<string>)
    ensures r.Some? <==> key.Some? && ':' in key.value
  {
    match key
    case None => None
    case Some(k) =>
      match SplitOnce(k, ':')
      case None => None
      case Some((_, symbol)) => Some(Upper(Trim(symbol)))
  }

  /** The ticker is the upper-cased, trimmed text after the key's first ':'. */
  lemma TickerOfKeySplit(key: string)
    requires ':' in key
    ensures exists exchange, symbol :: (&& key == exchange + [':'] + symbol && ':' !in exchange
                                        && TickerOfKey(Some(key)) == Some(Upper(Trim(symbol))))
  {
    var parts := SplitOnce(key, ':').value;
    assert key == parts.0 + [':'] + parts.1;
    assert TickerOfKey(Some(key)) == Some(Upper(Trim(parts.1)));
  }

  /** The tickers of all rows, in row order. */
  function Tickers(keys: seq<Option<string>>): seq<string> {
    Kept(keys, TickerOfKey)
  }

  /** The `Some` values of `f` over `xs`, in order (`filter_map`). */
  function Kept<A, B>(xs: seq<A>, f: A -> Option<B>): seq<B> {
    if xs == [] then [] else Kept(xs[..|xs| - 1], f) + Pushed(f(xs[|xs| - 1]))
  }

  /** What one element adds to the result. */
  function Pushed<B>(o: Option<B>): seq<B> {
    match o
    case None => []
    case Some(y) => [y]
  }

  /** The loop pushes before it compares, so a count of 0 still lets one
      ticker through. */
  function Cap(count: nat): (c: nat)
    ensures c >= 1 && c >= count
  {
    if count == 0 then 1 else count
  }

  /** The row loop of `fetch_stocks`: rows without a key or without ':' are
      skipped, and the scan stops once `count` tickers are in hand. The
      result is the first tickers of the rows, in row order, at most
      `Cap(count)` of them. */
  method RowTickers(keys: seq<Option<string>>, count: nat) returns (result: seq<string>)
    ensures |result| == Min(|Tickers(keys)|, Cap(count))
    ensures result == Tickers(keys)[..|result|]
  {
    result := [];
    var i := 0;
    while i < |keys|
      invariant 0 <= i <= |keys|
      invariant result == Tickers(keys[..i]) && |result| < Cap(count)
    {
      KeptSnoc(keys, TickerOfKey, i);
      var ticker := TickerOfKey(keys[i]);
      if ticker.Some? {
        result := result + [ticker.value];
        if |result| >= count {
          Stopped(keys, i + 1, count);
          return;
        }
      }
      i := i + 1;
    }
    assert keys[..i] == keys;
  }

  lemma KeptSnoc<A, B>(xs: seq<A>, f: A -> Option<B>, i: nat)
    requires i < |xs|
    ensures Kept(xs[..i + 1], f) == Kept(xs[..i], f) + Pushed(f(xs[i]))
  {
    assert xs[..i + 1][..i] == xs[..i];
  }

  /** Stopping once `count` is reached leaves the first `Cap(count)` tickers. */
  lemma Stopped(keys: seq<Option<string>>, n: nat, count: nat)
    requires n <= |keys|
    requires 1 <= |Tickers(keys[..n])| && count <= |Tickers(keys[..n])| <= Cap(count)
    ensures |Tickers(keys[..n])| == Min(|Tickers(keys)|, Cap(count))
    ensures Tickers(keys[..n]) == Tickers(keys)[..|Tickers(keys[..n])|]
  {
    KeptPrefix(keys, TickerOfKey, n);
    var a, b := Tickers(keys[..n]), Tickers(keys);
    assert a <= b;
    assert |a| == Cap(count);
  }

  function Min(a: nat, b: nat): nat { if a <= b then a else b }

  /** What a prefix keeps begins what the whole keeps. */
  lemma {:induction false} KeptPrefix<A, B>(xs: seq<A>, f: A -> Option<B>, n: nat)
    requires n <= |xs|
    ensures Kept(xs[..n], f) <= Kept(xs, f)
    decreases |xs| - n
  {
    if n < |xs| {
      KeptPrefix(xs, f, n + 1);
      KeptSnoc(xs, f, n);
    } else {
      assert xs[..n] == xs;
    }
  }

  /** A value is kept exactly when `f` yields it for some element. */
  lemma {:induction false} KeptMembers<A, B>(xs: seq<A>, f: A -> Option<B>, y: B)
    ensures y in Kept(xs, f) <==> exists i :: 0 <= i < |xs| && f(xs[i]) == Some(y)
  {
    if xs != [] {
      var n := |xs| - 1;
      var front := xs[..n];
      KeptMembers(front, f, y);
      if y in Kept(xs, f) {
        if y in Kept(front, f) {
          var i :| 0 <= i < |front| && f(front[i]) == Some(y);
          assert f(xs[i]) == Some(y);
        } else {
          assert f(xs[n]) == Some(y);
        }
      }
      if exists i :: 0 <= i < |xs| && f(xs[i]) == Some(y) {
        var i :| 0 <= i < |xs| && f(xs[i]) == Some(y);
        if i < n {
          assert f(front[i]) == Some(y);
        } else {
          assert y in Pushed(f(xs[n]));
        }
      }
    }
  }

  /** Every collected ticker comes from some row's key and has no lower-case ASCII letter. */
  lemma TickersShaped(keys: seq<Option<string>>, t: string)
    requires t in Tickers(keys)
    ensures exists i :: 0 <= i < |keys| && TickerOfKey(keys[i]) == Some(t)
    ensures forall j :: 0 <= j < |t| ==> !IsAsciiLower(t[j])
  {
    KeptMembers(keys, TickerOfKey, t);
  }
}
