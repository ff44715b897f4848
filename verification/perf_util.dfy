/** Performance tables on TradingView pages (src/tv/perf_util.rs): find the
    columns of the four trailing returns in the table header, then read one
    performance row per table row. The page is not modelled: the header
    cells' `data-field` attributes and the rows' cell texts are parameters
    (`None` for a missing attribute or a cell without inner text). */
module PerfUtil {
  import opened Wrappers
  import opened Domain
  import opened Text
  import Util
  import Storage

  /** The four return horizons, in the order the header scan tries them. */
  const PerfColNames: seq<string> := ["1M", "3M", "6M", "1Y"]

  /** The `data-field` of the header cell for one horizon. */
  function PerfField(horizon: string): string { "Performance|Interval" + horizon }

  /** One parsed table row: its name, its type and its returns by horizon. */
  datatype PerfRow = PerfRow(name: string, tickerType: TickerType, perfMap: map<string, real>)

  // --------------------------------------------------------------- find_perf_cols

  /** The index of the first header cell whose `data-field` is `field`. */
  function FirstHeader(headers: seq<Option<string>>, field: string): (r: Option<nat>)
    ensures r.Some? ==> (&& r.value < |headers| && headers[r.value] == Some(field)
                         && forall k :: 0 <= k < r.value ==> headers[k] != Some(field))
    ensures r.None? ==> forall k :: 0 <= k < |headers| ==> headers[k] != Some(field)
  {
    if headers == [] then None
    else if headers[0] == Some(field) then Some(0)
    else match FirstHeader(headers[1..], field)
      case None => None
      case Some(i) => Some(i + 1)
  }

  /** The column map the header scan produces: each horizon that has a
      column, to the index of its first column. */
  function PerfCols(headers: seq<Option<string>>): (m: map<string, nat>)
    ensures forall col :: col in m ==> col in PerfColNames
  {
    map col | col in PerfColNames && FirstHeader(headers, PerfField(col)).Some?
      :: FirstHeader(headers, PerfField(col)).value
  }

  /** At most four columns are found. */
  lemma PerfColsSize(headers: seq<Option<string>>)
    ensures |PerfCols(headers)| <= 4
  {
    var names := set col | col in PerfColNames;
    assert names == {"1M", "3M", "6M", "1Y"};
    SubsetSize(PerfCols(headers).Keys, names);
  }

  lemma {:induction false} SubsetSize<T>(a: set<T>, b: set<T>)
    requires a <= b
    ensures |a| <= |b|
    decreases |b|
  {
    if b != {} {
      var x :| x in b;
      SubsetSize(a - {x}, b - {x});
    }
  }

  /** `find_perf_cols`: scan the header cells in order, trying each horizon
      on each cell and keeping the first index per horizon; stop once all
      four are found. */
  method FindPerfCols(headers: seq<Option<string>>) returns (indices: map<string, nat>)
    ensures indices == PerfCols(headers)
  {
    indices := map[];
    var idx := 0;
    while idx < |headers|
      invariant 0 <= idx <= |headers|
      invariant forall col :: col in indices ==> col in PerfColNames
      invariant Found(headers, indices, idx)
      invariant Missing(headers, indices, idx, 4)
    {
      for j := 0 to 4
        invariant CellScan(headers, indices, idx, j)
      {
        var col := PerfColNames[j];
        var before := indices;
        if headers[idx] == Some(PerfField(col)) && col !in indices {
          indices := indices[col := idx];
        }
        CellScanStep(headers, before, indices, idx, j);
      }
      if |indices| == 4 {
        AllFound(indices);
        break;
      }
      idx := idx + 1;
    }
    FoundIsPerfCols(headers, indices);
  }

  /** The state inside the horizon loop at header `idx`, horizon `j`. */
  ghost predicate CellScan(headers: seq<Option<string>>, indices: map<string, nat>, idx: nat, j: nat)
    requires j <= 4
  {
    && idx < |headers|
    && (forall col :: col in indices ==> col in PerfColNames)
    && Found(headers, indices, idx + 1)
    && (forall c :: 0 <= c < j ==> Absent(headers, indices, idx + 1, PerfColNames[c]))
    && (forall c :: j <= c < 4 ==> Absent(headers, indices, idx, PerfColNames[c]))
  }

  /** Trying horizon `j` on header `idx` keeps the scan state. */
  lemma CellScanStep(headers: seq<Option<string>>, before: map<string, nat>, after: map<string, nat>, idx: nat, j: nat)
    requires j < 4 && CellScan(headers, before, idx, j)
    requires after == if headers[idx] == Some(PerfField(PerfColNames[j])) && PerfColNames[j] !in before
                      then before[PerfColNames[j] := idx] else before
    ensures CellScan(headers, after, idx, j + 1)
  {
  }

  /** Every column in `indices` is the first one for its horizon, below `upTo`. */
  ghost predicate Found(headers: seq<Option<string>>, indices: map<string, nat>, upTo: nat) {
    forall col :: col in indices ==> (&& indices[col] < upTo && indices[col] < |headers|
                                      && headers[indices[col]] == Some(PerfField(col))
                                      && forall k :: 0 <= k < indices[col] ==> headers[k] != Some(PerfField(col)))
  }

  /** A horizon not in `indices` has no column below `upTo`. */
  ghost predicate Absent(headers: seq<Option<string>>, indices: map<string, nat>, upTo: nat, col: string) {
    col !in indices ==> forall k :: 0 <= k < upTo && k < |headers| ==> headers[k] != Some(PerfField(col))
  }

  ghost predicate Missing(headers: seq<Option<string>>, indices: map<string, nat>, upTo: nat, n: nat)
    requires n <= 4
  {
    forall c :: 0 <= c < n ==> Absent(headers, indices, upTo, PerfColNames[c])
  }

  /** Four horizons found means every horizon is found. */
  lemma AllFound(indices: map<string, nat>)
    requires forall col :: col in indices ==> col in PerfColNames
    requires |indices| == 4
    ensures forall c :: 0 <= c < 4 ==> PerfColNames[c] in indices
  {
    forall c | 0 <= c < 4 ensures PerfColNames[c] in indices {
      if PerfColNames[c] !in indices {
        var rest := (set col | col in PerfColNames) - {PerfColNames[c]};
        assert |set col | col in PerfColNames| == 4 by {
          assert (set col | col in PerfColNames) == {"1M", "3M", "6M", "1Y"};
        }
        SubsetSize(indices.Keys, rest);
      }
    }
  }

  /** Scanned to the end (or all found), the first indices are `PerfCols`. */
  lemma FoundIsPerfCols(headers: seq<Option<string>>, indices: map<string, nat>)
    requires forall col :: col in indices ==> col in PerfColNames
    requires Found(headers, indices, |headers|)
    requires forall c :: 0 <= c < 4 ==> Absent(headers, indices, |headers|, PerfColNames[c])
    ensures indices == PerfCols(headers)
  {
    var m := PerfCols(headers);
    forall col | col in PerfColNames
      ensures col in indices <==> col in m
      ensures col in indices ==> indices[col] == m[col]
    {
      var f := FirstHeader(headers, PerfField(col));
      if col in indices {
        assert f.Some?;
        assert !(f.value < indices[col]) && !(indices[col] < f.value);
      }
    }
  }

  // --------------------------------------------------------------- parse_perf_info

  /** The row name: the text before the first line break, trimmed, when the
      cell has one; otherwise the whole text. */
  function RowName(text: string): (r: string)
    ensures '\n' !in text ==> r == text
  {
    match SplitOnce(text, '\n')
    case None => text
    case Some((head, _)) => Trim(head)
  }

  /** With a line break, the name is the trimmed text before the first one;
      it holds no line break itself, so naming is idempotent. */
  lemma RowNameSplit(text: string)
    requires '\n' in text
    ensures exists head, tail :: (&& text == head + ['\n'] + tail && '\n' !in head
                                  && RowName(text) == Trim(head))
    ensures '\n' !in RowName(text)
    ensures RowName(RowName(text)) == RowName(text)
  {
    var parts := SplitOnce(text, '\n').value;
    assert text == parts.0 + ['\n'] + parts.1;
    assert RowName(text) == Trim(parts.0);
    if '\n' in Trim(parts.0) {
      TrimMembers(parts.0, '\n');
    }
  }

  /** `parse_percentage` with the `f64` parser fixed. */
  function Percent(parseF64: string -> Option<real>): string -> Result<real, string> {
    text => Util.ParsePercentage(text, parseF64)
  }

  /** The cell at `idx` exists, has text and that text parses as a percentage. */
  predicate CellOk(cells: seq<Option<string>>, idx: nat, pct: string -> Result<real, string>) {
    idx < |cells| && cells[idx].Some? && pct(cells[idx].value).Success?
  }

  /** A row parses when it has a named first cell and every column's cell is fine. */
  predicate RowOk(indices: map<string, nat>, cells: seq<Option<string>>, pct: string -> Result<real, string>) {
    && |cells| > 0 && cells[0].Some?
    && forall col :: col in indices ==> CellOk(cells, indices[col], pct)
  }

  /** The return a good cell holds. */
  function ReturnOf(cells: seq<Option<string>>, idx: nat, pct: string -> Result<real, string>): real
    requires CellOk(cells, idx, pct)
  {
    pct(cells[idx].value).value
  }

  /** The returns of a row whose column cells are all good, by horizon. */
  function Returns(indices: map<string, nat>, cells: seq<Option<string>>, pct: string -> Result<real, string>)
    : map<string, real>
    requires forall col :: col in indices ==> CellOk(cells, indices[col], pct)
  {
    map col | col in indices :: ReturnOf(cells, indices[col], pct)
  }

  /** A map filled column by column with the cells' returns is `Returns`. */
  lemma ReturnsFilled(indices: map<string, nat>, cells: seq<Option<string>>, pct: string -> Result<real, string>,
                      perfMap: map<string, real>)
    requires perfMap.Keys == indices.Keys
    requires forall col :: col in perfMap ==> (&& CellOk(cells, indices[col], pct)
                                               && perfMap[col] == ReturnOf(cells, indices[col], pct))
    ensures perfMap == Returns(indices, cells, pct)
  {
  }

  /** The row a parsable table row stands for. */
  function PerfRowOf(indices: map<string, nat>, cells: seq<Option<string>>, tickerType: TickerType,
                     pct: string -> Result<real, string>): (r: PerfRow)
    requires RowOk(indices, cells, pct)
  {
    PerfRow(RowName(cells[0].value), tickerType, Returns(indices, cells, pct))
  }

  /** `result` holds the parse of each of `rows`, in order. */
  ghost predicate AllParsed(indices: map<string, nat>, rows: seq<seq<Option<string>>>, tickerType: TickerType,
                            pct: string -> Result<real, string>, result: seq<PerfRow>)
  {
    && |result| == |rows|
    && forall k :: 0 <= k < |rows| ==> (&& RowOk(indices, rows[k], pct)
                                        && result[k] == PerfRowOf(indices, rows[k], tickerType, pct))
  }

  lemma AllParsedSnoc(indices: map<string, nat>, rows: seq<seq<Option<string>>>, tickerType: TickerType,
                      pct: string -> Result<real, string>, result: seq<PerfRow>, i: nat, row: PerfRow)
    requires i < |rows|
    requires AllParsed(indices, rows[..i], tickerType, pct, result)
    requires RowOk(indices, rows[i], pct) && row == PerfRowOf(indices, rows[i], tickerType, pct)
    ensures AllParsed(indices, rows[..i + 1], tickerType, pct, result + [row])
  {
    forall k | 0 <= k < i + 1
      ensures RowOk(indices, rows[..i + 1][k], pct)
      ensures (result + [row])[k] == PerfRowOf(indices, rows[..i + 1][k], tickerType, pct)
    {
      if k < i {
        assert rows[..i + 1][k] == rows[..i][k];
      }
    }
  }

  /** One column of `parse_perf_info`: the cell must exist, have text and
      parse as a percentage (`pct` is `parse_percentage`, see `Percent`). */
  method ParseCell(cells: seq<Option<string>>, idx: nat, col: string, pct: string -> Result<real, string>)
    returns (r: Result<real, string>)
    ensures r.Success? <==> CellOk(cells, idx, pct)
    ensures r.Success? ==> r.value == ReturnOf(cells, idx, pct)
    ensures idx >= |cells| ==> r == Failure("No cell for " + col)
  {
    if idx >= |cells| {
      return Failure("No cell for " + col);
    }
    if cells[idx].None? {
      return Failure("No inner text for " + col);
    }
    r := pct(cells[idx].value);
  }

  /** `parse_perf_info`: the name from the first cell, then one return per
      found column. The columns are visited in no fixed order (a `HashMap`),
      so when several cells are bad the error reported is any one of theirs. */
  method ParsePerfInfo(indices: map<string, nat>, cells: seq<Option<string>>, tickerType: TickerType,
                       pct: string -> Result<real, string>)
    returns (r: Result<PerfRow, string>)
    ensures r.Success? <==> RowOk(indices, cells, pct)
    ensures r.Success? ==> r.value == PerfRowOf(indices, cells, tickerType, pct)
    ensures |cells| == 0 ==> r == Failure("No cells returned")
    ensures |cells| > 0 && cells[0].None? ==> r == Failure("No sector name")
  {
    if |cells| == 0 {
      return Failure("No cells returned");
    }
    if cells[0].None? {
      return Failure("No sector name");
    }
    var name := RowName(cells[0].value);
    var perfMap: map<string, real> := map[];
    var remaining := indices.Keys;
    while remaining != {}
      invariant remaining <= indices.Keys
      invariant forall col :: col in perfMap <==> col in indices && col !in remaining
      invariant forall col :: col in perfMap ==> (&& CellOk(cells, indices[col], pct)
                                                  && perfMap[col] == ReturnOf(cells, indices[col], pct))
      decreases |remaining|
    {
      var col :| col in remaining;
      var v := ParseCell(cells, indices[col], col, pct);
      if v.Failure? {
        assert !RowOk(indices, cells, pct) by {
          assert col in indices && !CellOk(cells, indices[col], pct);
        }
        return Failure(v.error);
      }
      perfMap := perfMap[col := v.value];
      remaining := remaining - {col};
    }
    assert perfMap.Keys == indices.Keys;
    ReturnsFilled(indices, cells, pct, perfMap);
    r := Success(PerfRow(name, tickerType, perfMap));
  }

  // ------------------------------------------------------------ parse_performances

  function NotLoaded(tickerType: TickerType): string {
    "Performance information didn't load in time for " + Storage.EncodeTickerType(tickerType)
  }

  /** `parse_performances`: no performance column is an error; otherwise one
      row per table row, in order, and the first bad row ends the scan with
      its error. */
  method ParsePerformances(headers: seq<Option<string>>, rows: seq<seq<Option<string>>>, tickerType: TickerType,
                           parseF64: string -> Option<real>)
    returns (r: Result<seq<PerfRow>, string>)
    ensures PerfCols(headers) == map[] ==> r == Failure(NotLoaded(tickerType))
    ensures r.Success? <==> (PerfCols(headers) != map[]
                             && forall i :: 0 <= i < |rows| ==> RowOk(PerfCols(headers), rows[i], Percent(parseF64)))
    ensures r.Success? ==> (&& |r.value| == |rows|
                            && forall i :: 0 <= i < |rows| ==>
                                 r.value[i] == PerfRowOf(PerfCols(headers), rows[i], tickerType, Percent(parseF64)))
  {
    var indices := FindPerfCols(headers);
    if indices == map[] {
      return Failure(NotLoaded(tickerType));
    }
    var result: seq<PerfRow> := [];
    for i := 0 to |rows|
      invariant AllParsed(indices, rows[..i], tickerType, Percent(parseF64), result)
    {
      var row := ParsePerfInfo(indices, rows[i], tickerType, Percent(parseF64));
      if row.Failure? {
        return Failure(row.error);
      }
      AllParsedSnoc(indices, rows, tickerType, Percent(parseF64), result, i, row.value);
      result := result + [row.value];
    }
    assert rows[..|rows|] == rows;
    r := Success(result);
  }
}
