/**
 * The two driver handlers that join result rows onto drivers. The queries
 * themselves are inputs: `drivers` and `results` are the rows they return.
 */
module DriverService {
  import opened Wrappers
  import opened Types
  import opened Seqs
  import opened Utils

  /** `result.driver === driverId`. */
  function BelongsTo(driverId: string): ResultRow -> bool
  {
    (r: ResultRow) => r.driver == Some(driverId)
  }

  /** `rows.filter(result => result.driver === driverId)`. */
  function ResultsOf(rows: seq<ResultRow>, driverId: string): seq<ResultRow>
  {
    Filter(rows, BelongsTo(driverId))
  }

  /** A driver gets exactly the rows whose `driver` is its id. */
  lemma ResultsOfMembers(rows: seq<ResultRow>, driverId: string, r: ResultRow)
    ensures r in ResultsOf(rows, driverId) <==> r in rows && r.driver == Some(driverId)
  {
  }

  /** Each row of the driver is attached as often as it occurs in the table. */
  lemma ResultsOfCount(rows: seq<ResultRow>, driverId: string, r: ResultRow)
    ensures multiset(ResultsOf(rows, driverId))[r] == if r.driver == Some(driverId) then multiset(rows)[r] else 0
  {
    FilterCount(rows, BelongsTo(driverId), r);
  }

  /** The rows of a driver keep their table order: filtering commutes with concatenation. */
  lemma ResultsOfKeepsOrder(a: seq<ResultRow>, b: seq<ResultRow>, driverId: string)
    ensures ResultsOf(a + b, driverId) == ResultsOf(a, driverId) + ResultsOf(b, driverId)
  {
    FilterAppend(a, b, BelongsTo(driverId));
  }

  /** A driver row after `driver.results = resultsData.rows.filter(...)`. */
  function Joined(d: Driver, rows: seq<ResultRow>): (j: Driver)
    ensures j.driverId == d.driverId && j.results == ResultsOf(rows, d.driverId)
    ensures j.(results := d.results) == d
  {
    d.(results := ResultsOf(rows, d.driverId))
  }

  /** `getDrivers`: one response per driver, in driver order, each with its own result rows. */
  method GetDrivers(drivers: seq<Driver>, results: seq<ResultRow>) returns (response: seq<DriverResponse>)
    ensures |response| == |drivers|
    ensures forall i :: 0 <= i < |drivers| ==> response[i] == ParseDriverResponse(Joined(drivers[i], results))
  {
    response := [];
    var k := 0;
    while k < |drivers|
      invariant 0 <= k <= |drivers|
      invariant |response| == k
      invariant forall i :: 0 <= i < k ==> response[i] == ParseDriverResponse(Joined(drivers[i], results))
    {
      var driver := Joined(drivers[k], results);
      response := response + [ParseDriverResponse(driver)];
      k := k + 1;
    }
  }

  /** Each result in a driver's response was parsed from a row of that driver. */
  lemma {:induction false} ResponseRowsBelongToDriver(d: Driver, results: seq<ResultRow>, j: int)
    requires 0 <= j < |ParseDriverResponse(Joined(d, results)).results|
    ensures exists r :: r in results && r.driver == Some(d.driverId)
                        && ParseDriverResponse(Joined(d, results)).results[j] == ParseDriverResults(r)
  {
    var r := ResultsOf(results, d.driverId)[j];
    assert r in ResultsOf(results, d.driverId);
  }

  /** A row whose `driver` is no listed driver's id is attached to no driver. */
  lemma UnmatchedRowAttachedNowhere(drivers: seq<Driver>, results: seq<ResultRow>, r: ResultRow)
    requires forall i :: 0 <= i < |drivers| ==> r.driver != Some(drivers[i].driverId)
    ensures forall i :: 0 <= i < |drivers| ==> r !in Joined(drivers[i], results).results
  {
  }

  /** A row after `result.driver = undefined; result.points = pos <= 10 ? scores[pos - 1] : 0`. */
  function InlineScored(r: ResultRow): (s: ResultRow)
    ensures s.driver.None? && s.points == PositionPoints(r.position)
    ensures s.(driver := r.driver, points := r.points) == r
  {
    r.(driver := None, points := PositionPoints(r.position))
  }

  function InlineScoredAll(rs: seq<ResultRow>): (out: seq<ResultRow>)
    ensures |out| == |rs|
    ensures forall i :: 0 <= i < |rs| ==> out[i] == InlineScored(rs[i])
  {
    seq(|rs|, i requires 0 <= i < |rs| => InlineScored(rs[i]))
  }

  /** The inline rule ignores the race type, so it is not `calculateRacePoints`: a pole without fastest lap scores 25, not 0. */
  lemma InlineRuleIgnoresRaceType()
    ensures var r := ResultRow("r1", Some("d1"), Int(1), None, None, "q1", "Qualifying", "t0", 0,
                               "t1", "Track", "w1", "Weekend", "c1", "Competition");
            InlineScored(r).points == Some(25) && CalculateRacePoints(r) == Some(0)
  {
    assert Scores[0] == 25;
  }

  /** Off races the rules part ways: a winner of any other session type scores 25 inline, but at most 1 by `calculateRacePoints`. */
  lemma InlineRuleDiffersOffRaces(r: ResultRow)
    requires r.raceType != "Race" && r.position == Int(1)
    ensures InlineScored(r).points == Some(25)
    ensures CalculateRacePoints(r).Some? && CalculateRacePoints(r).value <= 1
  {
    assert Scores[0] == 25;
  }

  /** For races the two rules agree. */
  lemma InlineRuleAgreesOnRaces(r: ResultRow)
    requires r.raceType == "Race"
    ensures InlineScored(r).points == CalculateRacePoints(r)
  {
  }

  /** A table row after one driver's `forEach`: rewritten when it belongs to that driver. */
  function Rewritten(r: ResultRow, driverId: string): ResultRow
  {
    if r.driver == Some(driverId) then InlineScored(r) else r
  }

  /** The whole table after one driver's `forEach`. */
  function RewriteRows(rows: seq<ResultRow>, driverId: string): seq<ResultRow>
  {
    seq(|rows|, m requires 0 <= m < |rows| => Rewritten(rows[m], driverId))
  }

  /** Attaching one more row extends the attached rows by that row when it matches. */
  lemma AttachStep(rows: seq<ResultRow>, m: int, driverId: string)
    requires 0 <= m < |rows|
    ensures InlineScoredAll(ResultsOf(rows[..m + 1], driverId)) ==
            InlineScoredAll(ResultsOf(rows[..m], driverId)) +
            (if rows[m].driver == Some(driverId) then [InlineScored(rows[m])] else [])
  {
    assert rows[..m + 1] == rows[..m] + [rows[m]];
    ResultsOfKeepsOrder(rows[..m], [rows[m]], driverId);
    var tail := if rows[m].driver == Some(driverId) then [rows[m]] else [];
    assert ResultsOf([rows[m]], driverId) == tail by {
      assert [rows[m]][1..] == [];
    }
    var a := InlineScoredAll(ResultsOf(rows[..m], driverId));
    var b := InlineScoredAll(ResultsOf(rows[..m], driverId) + tail);
    assert |b| == |a| + |tail|;
    assert b == a + InlineScoredAll(tail);
  }

  /**
   * One `driver.results = rows.filter(...)` followed by its `forEach`: the
   * matching rows are rewritten in place and attached in table order.
   */
  method AttachAndScore(rows: seq<ResultRow>, driverId: string) returns (rows': seq<ResultRow>, attached: seq<ResultRow>)
    ensures rows' == RewriteRows(rows, driverId)
    ensures attached == InlineScoredAll(ResultsOf(rows, driverId))
  {
    rows', attached := [], [];
    for m := 0 to |rows|
      invariant |rows'| == m
      invariant forall i :: 0 <= i < m ==> rows'[i] == Rewritten(rows[i], driverId)
      invariant attached == InlineScoredAll(ResultsOf(rows[..m], driverId))
    {
      AttachStep(rows, m, driverId);
      if rows[m].driver == Some(driverId) {
        attached := attached + [InlineScored(rows[m])];
      }
      rows' := rows' + [Rewritten(rows[m], driverId)];
    }
    assert rows[..|rows|] == rows;
  }

  /** Some earlier driver row has the same id. */
  predicate SeenBefore(drivers: seq<Driver>, k: int, driver: Option<string>)
    requires 0 <= k <= |drivers|
  {
    exists j :: 0 <= j < k && driver == Some(drivers[j].driverId)
  }

  /** The state of `results.rows` after the first `k` drivers were processed. */
  predicate RowsAfter(drivers: seq<Driver>, k: int, results: seq<ResultRow>, rows: seq<ResultRow>)
    requires 0 <= k <= |drivers|
  {
    && |rows| == |results|
    && forall m :: 0 <= m < |results| ==>
         rows[m] == if SeenBefore(drivers, k, results[m].driver) then InlineScored(results[m]) else results[m]
  }

  /** What driver `k` finds: nothing if its id came before, otherwise its rows as first queried. */
  lemma FoundRows(drivers: seq<Driver>, k: int, results: seq<ResultRow>, rows: seq<ResultRow>)
    requires 0 <= k < |drivers| && RowsAfter(drivers, k, results, rows)
    ensures ResultsOf(rows, drivers[k].driverId) ==
            if SeenBefore(drivers, k, Some(drivers[k].driverId)) then [] else ResultsOf(results, drivers[k].driverId)
  {
    var id := drivers[k].driverId;
    var keep := BelongsTo(id);
    if SeenBefore(drivers, k, Some(id)) {
      forall m | 0 <= m < |rows| ensures !keep(rows[m]) {
        if !SeenBefore(drivers, k, results[m].driver) {
          assert results[m].driver != Some(id);
        }
      }
      FilterNone(rows, keep);
    } else {
      forall m | 0 <= m < |rows| ensures keep(rows[m]) == keep(results[m]) {
        if SeenBefore(drivers, k, results[m].driver) {
          assert results[m].driver != Some(id);
        }
      }
      FilterAgree(rows, results, keep);
    }
  }

  /** Processing driver `k` moves the table state from `k` to `k + 1`. */
  lemma NextRows(drivers: seq<Driver>, k: int, results: seq<ResultRow>, rows: seq<ResultRow>, rows': seq<ResultRow>)
    requires 0 <= k < |drivers| && RowsAfter(drivers, k, results, rows)
    requires rows' == RewriteRows(rows, drivers[k].driverId)
    ensures RowsAfter(drivers, k + 1, results, rows')
  {
    forall m | 0 <= m < |results|
      ensures rows'[m] == if SeenBefore(drivers, k + 1, results[m].driver) then InlineScored(results[m]) else results[m]
    {
      if SeenBefore(drivers, k, results[m].driver) {
        var j :| 0 <= j < k && results[m].driver == Some(drivers[j].driverId);
        assert 0 <= j < k + 1;
      } else if results[m].driver == Some(drivers[k].driverId) {
        assert 0 <= k < k + 1;
      } else {
        assert !SeenBefore(drivers, k + 1, results[m].driver);
      }
    }
  }

  /** The results `getDriverById` attaches to driver `i`. */
  function AttachedById(drivers: seq<Driver>, i: int, results: seq<ResultRow>): seq<ResultRow>
    requires 0 <= i < |drivers|
  {
    if SeenBefore(drivers, i, Some(drivers[i].driverId)) then []
    else InlineScoredAll(ResultsOf(results, drivers[i].driverId))
  }

  /** Every result `getDriverById` attaches has `driver` cleared and the inline points. */
  lemma AttachedRowsCleared(drivers: seq<Driver>, i: int, results: seq<ResultRow>, j: int)
    requires 0 <= i < |drivers| && 0 <= j < |AttachedById(drivers, i, results)|
    ensures AttachedById(drivers, i, results)[j].driver.None?
    ensures AttachedById(drivers, i, results)[j].points == PositionPoints(AttachedById(drivers, i, results)[j].position)
  {
  }

  /** Driver `i` as `getDriverById` returns it: its own fields with the rows attached to it. */
  function DriverById(drivers: seq<Driver>, i: int, results: seq<ResultRow>): Driver
    requires 0 <= i < |drivers|
  {
    drivers[i].(results := AttachedById(drivers, i, results))
  }

  /**
   * `getDriverById`. Result rows are objects shared between the query result
   * and the drivers' arrays, so a row rewritten for one driver (its `driver`
   * cleared) no longer matches a later driver row with the same id, which then
   * gets no results.
   */
  method GetDriverById(drivers: seq<Driver>, results: seq<ResultRow>) returns (out: seq<Driver>)
    ensures |out| == |drivers|
    ensures forall i :: 0 <= i < |drivers| ==> out[i] == DriverById(drivers, i, results)
  {
    out := [];
    var rows := results;
    for k := 0 to |drivers|
      invariant |out| == k
      invariant forall i :: 0 <= i < k ==> out[i] == DriverById(drivers, i, results)
      invariant RowsAfter(drivers, k, results, rows)
    {
      FoundRows(drivers, k, results, rows);
      var rows', attached := AttachAndScore(rows, drivers[k].driverId);
      NextRows(drivers, k, results, rows, rows');
      assert drivers[k].(results := attached) == DriverById(drivers, k, results);
      out := out + [drivers[k].(results := attached)];
      rows := rows';
    }
  }

  /** With distinct driver ids (the primary key), every driver gets all of its rows. */
  lemma DistinctIdsGetAllRows(drivers: seq<Driver>, i: int, results: seq<ResultRow>)
    requires 0 <= i < |drivers|
    requires forall a, b :: 0 <= a < b < |drivers| ==> drivers[a].driverId != drivers[b].driverId
    ensures AttachedById(drivers, i, results) == InlineScoredAll(ResultsOf(results, drivers[i].driverId))
  {
  }
}
