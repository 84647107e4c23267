/** The no-data memory of a rule worker: the series its queries returned before, and the no-data
    points raised for those that stopped being returned. */
module Nodata {
  import opened Common

  /** The hash of a series' reference and labels. */
  datatype SeriesHash = SeriesHash(value: nat)

  /** A returned series; each value is a pair of a timestamp and a sample. */
  datatype Series = Series(metric: map<string, string>, values: seq<seq<int>>)

  datatype Trigger = Trigger(severity: int, resolveAfterEnable: bool, resolveAfter: int)

  datatype Point = Point(labels: map<string, string>, timestamp: int, severity: int)

  type Store = map<SeriesHash, Series>

  /** The timestamp of the last value. */
  function Last(s: Series): Option<int> {
    if s.values == [] then None
    else
      var last := s.values[|s.values| - 1];
      if |last| != 2 then None else Some(last[0])
  }

  /** Out of the resolve-after window. */
  predicate Expired(s: Series, now: int, trigger: Trigger) {
    trigger.resolveAfterEnable && Last(s).Some? && now - Last(s).value > trigger.resolveAfter
  }

  /** Counted as missing when not returned: dated, where the window is on. */
  predicate Dated(s: Series, trigger: Trigger) {
    trigger.resolveAfterEnable ==> Last(s).Some?
  }

  /** The memory after one successful evaluation. */
  function Next(store: Store, results: Store, now: int, trigger: Trigger): Store {
    (map h | h in store && !Expired(store[h], now, trigger) :: store[h]) + results
  }

  function Missing(store: Store, results: Store, now: int, trigger: Trigger): set<SeriesHash> {
    set h | h in store && Dated(store[h], trigger) && !Expired(store[h], now, trigger) && h !in results
  }

  function PointOf(s: Series, now: int, trigger: Trigger): Point {
    Point(s.metric, now, trigger.severity)
  }

  /** The points of the series of `order`. */
  function PointsOf(order: seq<SeriesHash>, store: Store, now: int, trigger: Trigger): seq<Point> {
    if order == [] then []
    else
      var h := order[|order| - 1];
      PointsOf(order[..|order| - 1], store, now, trigger) + if h in store then [PointOf(store[h], now, trigger)] else []
  }

  /** The memory while the loop has still to visit `rest`. */
  ghost function Remaining(store: Store, rest: set<SeriesHash>, now: int, trigger: Trigger): Store {
    map h | h in store && (h in rest || !Expired(store[h], now, trigger)) :: store[h]
  }

  lemma RemainingStep(store: Store, rest: set<SeriesHash>, h: SeriesHash, now: int, trigger: Trigger)
    requires h in rest && rest <= store.Keys
    ensures var m := Remaining(store, rest, now, trigger);
            h in m && m[h] == store[h] &&
            Remaining(store, rest - {h}, now, trigger) == if Expired(store[h], now, trigger) then m - {h} else m
  {
  }

  class AlertRuleWorker {
    var lastSeriesStore: Store

    constructor ()
      ensures lastSeriesStore == map[]
    {
      lastSeriesStore := map[];
    }

    /** One turn of the loop over the remembered series. */
    method CheckSeries(hash: SeriesHash, seriesStore: Store, now: int, trigger: Trigger) returns (point: Option<Point>)
      requires hash in lastSeriesStore
      modifies this
      ensures lastSeriesStore ==
              if Expired(old(lastSeriesStore)[hash], now, trigger)
              then old(lastSeriesStore) - {hash} else old(lastSeriesStore)
      ensures point ==
              if hash in Missing(old(lastSeriesStore), seriesStore, now, trigger)
              then Some(PointOf(old(lastSeriesStore)[hash], now, trigger)) else None
    {
      var lastSeries := lastSeriesStore[hash];
      if trigger.resolveAfterEnable {
        if |lastSeries.values| == 0 {
          return None;
        }
        var lastValue := lastSeries.values[|lastSeries.values| - 1];
        if |lastValue| != 2 {
          return None;
        }
        if now - lastValue[0] > trigger.resolveAfter {
          lastSeriesStore := lastSeriesStore - {hash};
          return None;
        }
      }
      if hash !in seriesStore {
        return Some(Point(lastSeries.metric, now, trigger.severity));
      }
      return None;
    }

    /** The no-data part of GetAnomalyPoint: the points of the missing series, each once, in the order
        `order` of the visit. */
    method CheckNodata(seriesStore: Store, now: int, trigger: Trigger)
        returns (points: seq<Point>, ghost order: seq<SeriesHash>)
      modifies this
      ensures lastSeriesStore == Next(old(lastSeriesStore), seriesStore, now, trigger)
      ensures Enumerates(order, Missing(old(lastSeriesStore), seriesStore, now, trigger))
      ensures points == PointsOf(order, old(lastSeriesStore), now, trigger)
    {
      points, order := [], [];
      ghost var before := lastSeriesStore;
      ghost var missing := Missing(before, seriesStore, now, trigger);
      var rest := lastSeriesStore.Keys;
      while rest != {}
        invariant rest <= before.Keys
        invariant lastSeriesStore == Remaining(before, rest, now, trigger)
        invariant Enumerates(order, missing - rest)
        invariant points == PointsOf(order, before, now, trigger)
      {
        var hash :| hash in rest;
        RemainingStep(before, rest, hash, now, trigger);
        var point := CheckSeries(hash, seriesStore, now, trigger);
        rest := rest - {hash};
        if point.Some? {
          points := points + [point.value];
          assert missing - rest == missing - (rest + {hash}) + {hash};
          EnumeratesMore(order, missing - (rest + {hash}), hash);
          assert (order + [hash])[..|order|] == order;
          order := order + [hash];
        } else {
          assert missing - rest == missing - (rest + {hash});
        }
      }
      assert missing - rest == missing;
      lastSeriesStore := lastSeriesStore + seriesStore;
    }
  }

  // ----------------------------------------------------------- whole runs

  /** One successful evaluation: its time and what its queries returned. */
  datatype Round = Round(now: int, results: Store)

  function Memory(rounds: seq<Round>, trigger: Trigger): Store {
    if rounds == [] then map[]
    else
      var last := rounds[|rounds| - 1];
      Next(Memory(rounds[..|rounds| - 1], trigger), last.results, last.now, trigger)
  }

  /** The series given a no-data point in round `k`. */
  function Raised(rounds: seq<Round>, k: nat, trigger: Trigger): set<SeriesHash>
    requires k < |rounds|
  {
    Missing(Memory(rounds[..k], trigger), rounds[k].results, rounds[k].now, trigger)
  }

  /** Round `i` is the last of the first `k` rounds to return `h`. */
  predicate LastReturned(rounds: seq<Round>, k: nat, i: nat, h: SeriesHash) {
    i < k <= |rounds| && h in rounds[i].results && forall j :: i < j < k ==> h !in rounds[j].results
  }

  /** The last of the first `k` rounds to return `h`, if any did. */
  function Latest(rounds: seq<Round>, k: nat, h: SeriesHash): (r: Option<nat>)
    requires k <= |rounds|
    ensures r.Some? ==> LastReturned(rounds, k, r.value, h)
    ensures r.None? ==> forall j :: 0 <= j < k ==> h !in rounds[j].results
  {
    if k == 0 then None else if h in rounds[k - 1].results then Some(k - 1) else Latest(rounds, k - 1, h)
  }

  /** Still inside the window in every round after `i` and before `k`. */
  predicate Fresh(rounds: seq<Round>, k: nat, i: nat, h: SeriesHash, trigger: Trigger)
    requires i < |rounds| && k <= |rounds| && h in rounds[i].results
  {
    forall j :: i < j < k ==> !Expired(rounds[i].results[h], rounds[j].now, trigger)
  }

  /** The memory holds `h` exactly when it was returned and has not expired since, and then holds the
      most recently returned series. */
  lemma {:induction false} MemoryIsLatest(rounds: seq<Round>, k: nat, h: SeriesHash, trigger: Trigger)
    requires k <= |rounds|
    ensures Lookup(Memory(rounds[..k], trigger), h) ==
            match Latest(rounds, k, h)
            case None => None
            case Some(i) => if Fresh(rounds, k, i, h, trigger) then Some(rounds[i].results[h]) else None
  {
    if k > 0 {
      var n := k - 1;
      assert rounds[..k][..n] == rounds[..n];
      MemoryIsLatest(rounds, n, h, trigger);
    }
  }

  /** A no-data point is raised exactly for a series that is not returned now, was returned before, and
      since it was last returned has at no evaluation, this one included, been out of the window. */
  lemma RaisedExactly(rounds: seq<Round>, k: nat, h: SeriesHash, trigger: Trigger)
    requires k < |rounds|
    ensures h in Raised(rounds, k, trigger) <==>
            h !in rounds[k].results &&
            match Latest(rounds, k, h)
            case None => false
            case Some(i) => Fresh(rounds, k + 1, i, h, trigger) && Dated(rounds[i].results[h], trigger)
  {
    MemoryIsLatest(rounds, k, h, trigger);
  }

  predicate Forward(rounds: seq<Round>) {
    forall i, j :: 0 <= i < j < |rounds| ==> rounds[i].now <= rounds[j].now
  }

  /** What the window asks of the last value of a series: a date, no older than resolveAfter. */
  lemma WindowMeans(s: Series, now: int, trigger: Trigger)
    ensures Dated(s, trigger) && !Expired(s, now, trigger) <==>
            (trigger.resolveAfterEnable ==>
               var n := |s.values| - 1;
               s.values != [] && |s.values[n]| == 2 && now <= s.values[n][0] + trigger.resolveAfter)
  {
  }

  /** With a clock that does not run backwards, only the present time matters. */
  lemma RaisedWithinWindow(rounds: seq<Round>, k: nat, h: SeriesHash, trigger: Trigger)
    requires k < |rounds| && Forward(rounds)
    ensures h in Raised(rounds, k, trigger) <==>
            h !in rounds[k].results &&
            match Latest(rounds, k, h)
            case None => false
            case Some(i) =>
              Dated(rounds[i].results[h], trigger) && !Expired(rounds[i].results[h], rounds[k].now, trigger)
  {
    RaisedExactly(rounds, k, h, trigger);
  }

  lemma LatestIsUnique(rounds: seq<Round>, k: nat, i: nat, h: SeriesHash)
    requires LastReturned(rounds, k, i, h)
    ensures Latest(rounds, k, h) == Some(i)
  {
    var r := Latest(rounds, k, h);
    assert r.Some? && LastReturned(rounds, k, r.value, h);
  }

  /** Once a missing series has expired it raises nothing until it is returned again. */
  lemma SilentUntilReturned(rounds: seq<Round>, i: nat, j: nat, k: nat, h: SeriesHash, trigger: Trigger)
    requires i < j <= k < |rounds| && LastReturned(rounds, j, i, h)
    requires Expired(rounds[i].results[h], rounds[j].now, trigger)
    requires forall r :: j <= r < k ==> h !in rounds[r].results
    ensures h !in Raised(rounds, k, trigger)
  {
    RaisedExactly(rounds, k, h, trigger);
    LatestIsUnique(rounds, k, i, h);
  }

  /** A series without a dated last value is never forgotten, and under a window never raised. */
  lemma UndatedIsKept(rounds: seq<Round>, i: nat, k: nat, h: SeriesHash, trigger: Trigger)
    requires k < |rounds| && LastReturned(rounds, k, i, h) && Last(rounds[i].results[h]) == None
    ensures h in Memory(rounds[..k], trigger)
    ensures trigger.resolveAfterEnable ==> h !in Raised(rounds, k, trigger)
  {
    MemoryIsLatest(rounds, k, h, trigger);
    LatestIsUnique(rounds, k, i, h);
    assert Fresh(rounds, k, i, h, trigger);
  }

  /** A series without values, returned once and then missing for longer than the window: it is still
      remembered, and no point was raised for it. */
  lemma UndatedExample(h: SeriesHash, rounds: seq<Round>, trigger: Trigger)
    requires rounds == [Round(0, map[h := Series(map[], [])]), Round(100, map[])] && trigger == Trigger(1, true, 10)
    ensures h in Memory(rounds, trigger) && h !in Raised(rounds, 1, trigger)
  {
    UndatedIsKept(rounds, 0, 1, h, trigger);
    MemoryIsLatest(rounds, 2, h, trigger);
    LatestIsUnique(rounds, 2, 0, h);
    assert rounds[..2] == rounds && Fresh(rounds, 2, 0, h, trigger);
  }
}
