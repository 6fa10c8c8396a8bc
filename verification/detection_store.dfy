/**
 * The detection event store (`DetectionDBManager`): an append-only table of
 * detection rows with an auto-increment id, the suppression check and the
 * two "since local midnight" aggregations.
 *
 * The SQLite table is a sequence of rows in insertion order. Timestamps are
 * integer seconds on one clock; the ISO-8601 string comparisons of the SQL
 * queries are order comparisons on them, and the current time and the
 * instant of local midnight are parameters.
 */
module DetectionStore {
  import opened Common

  /** One row of the `detections` table; `imagePath` is nullable in the schema. */
  datatype Row = Row(
    id: nat,
    timestamp: int,
    className: string,
    confidence: real,
    imagePath: Option<string>,
    isNotified: bool)

  /** `timedelta(minutes=m)` in the store's time unit. */
  const SecondsPerMinute: int := 60

  /** The WHERE clauses of the store's queries. */
  datatype Where =
    | Since(start: int)                                              // timestamp >= start
    | NotifiedSince(start: int)                                      // timestamp >= start AND is_notified = 1
    | ClassSince(start: int, className: string)                      // timestamp >= start AND class_name = c
    | RecentAtLeast(className: string, threshold: real, after: int)  // class_name = c AND confidence >= t AND timestamp > after

  predicate Holds(w: Where, r: Row) {
    match w
    case Since(start) => r.timestamp >= start
    case NotifiedSince(start) => r.timestamp >= start && r.isNotified
    case ClassSince(start, c) => r.timestamp >= start && r.className == c
    case RecentAtLeast(c, t, after) => r.className == c && r.confidence >= t && r.timestamp > after
  }

  /** `SELECT COUNT(*) FROM detections WHERE w`. */
  function CountWhere(rows: seq<Row>, w: Where): (n: nat)
    ensures n <= |rows|
  {
    if rows == [] then 0
    else CountWhere(rows[..|rows| - 1], w) + (if Holds(w, rows[|rows| - 1]) then 1 else 0)
  }

  lemma CountWhereAppend(rows: seq<Row>, r: Row, w: Where)
    ensures CountWhere(rows + [r], w) == CountWhere(rows, w) + (if Holds(w, r) then 1 else 0)
  {
    assert (rows + [r])[..|rows|] == rows;
  }

  /** A count is positive exactly when some row satisfies the clause. */
  lemma {:induction false} CountWherePositive(rows: seq<Row>, w: Where)
    ensures CountWhere(rows, w) > 0 <==> exists i :: 0 <= i < |rows| && Holds(w, rows[i])
  {
    if rows != [] {
      var init := rows[..|rows| - 1];
      CountWherePositive(init, w);
      if exists i :: 0 <= i < |init| && Holds(w, init[i]) {
        var i :| 0 <= i < |init| && Holds(w, init[i]);
        assert rows[i] == init[i];
      }
      if exists i :: 0 <= i < |rows| && Holds(w, rows[i]) {
        var i :| 0 <= i < |rows| && Holds(w, rows[i]);
        if i < |init| {
          assert init[i] == rows[i];
        }
      }
    }
  }

  /** A weaker clause counts at least as many rows. */
  lemma {:induction false} CountWhereMonotone(rows: seq<Row>, w1: Where, w2: Where)
    requires forall i :: 0 <= i < |rows| && Holds(w1, rows[i]) ==> Holds(w2, rows[i])
    ensures CountWhere(rows, w1) <= CountWhere(rows, w2)
  {
    if rows != [] {
      var init := rows[..|rows| - 1];
      forall i | 0 <= i < |init| && Holds(w1, init[i])
        ensures Holds(w2, init[i])
      {
        assert init[i] == rows[i];
      }
      CountWhereMonotone(init, w1, w2);
    }
  }

  // ---------------------------------------------------------------------
  // The suppression check (db_manager.py:58-79)
  // ---------------------------------------------------------------------

  /** The instant `now - timedelta(minutes=minutes)`. */
  function WindowStart(now: int, minutes: int): int {
    now - minutes * SecondsPerMinute
  }

  /**
   * `get_recent_high_confidence_detection`: some row has the class, a
   * confidence of at least the threshold and a timestamp strictly after
   * the window start. Whether it was notified plays no part.
   */
  function RecentHighConfidence(rows: seq<Row>, className: string, threshold: real, minutes: int, now: int): (found: bool)
    ensures found <==> exists i :: 0 <= i < |rows| &&
                         rows[i].className == className && rows[i].confidence >= threshold &&
                         rows[i].timestamp > WindowStart(now, minutes)
  {
    var w := RecentAtLeast(className, threshold, WindowStart(now, minutes));
    CountWherePositive(rows, w);
    CountWhere(rows, w) > 0
  }

  /** Widening the window never turns a found detection into none. */
  lemma RecentWindowMonotone(rows: seq<Row>, className: string, threshold: real, minutes: int, wider: int, now: int)
    requires minutes <= wider
    requires RecentHighConfidence(rows, className, threshold, minutes, now)
    ensures RecentHighConfidence(rows, className, threshold, wider, now)
  {
    var w1 := RecentAtLeast(className, threshold, WindowStart(now, minutes));
    var w2 := RecentAtLeast(className, threshold, WindowStart(now, wider));
    assert WindowStart(now, wider) <= WindowStart(now, minutes);
    CountWhereMonotone(rows, w1, w2);
  }

  /** Lowering the threshold never turns a found detection into none. */
  lemma RecentThresholdMonotone(rows: seq<Row>, className: string, threshold: real, lower: real, minutes: int, now: int)
    requires lower <= threshold
    requires RecentHighConfidence(rows, className, threshold, minutes, now)
    ensures RecentHighConfidence(rows, className, lower, minutes, now)
  {
    var w1 := RecentAtLeast(className, threshold, WindowStart(now, minutes));
    var w2 := RecentAtLeast(className, lower, WindowStart(now, minutes));
    CountWhereMonotone(rows, w1, w2);
  }

  /**
   * A row of another class, below the threshold, or not strictly inside
   * the window does not change the answer of the check.
   */
  lemma RecentIgnoresNonMatchingRow(rows: seq<Row>, r: Row, className: string, threshold: real, minutes: int, now: int)
    requires r.className != className || r.confidence < threshold || r.timestamp <= WindowStart(now, minutes)
    ensures RecentHighConfidence(rows + [r], className, threshold, minutes, now) ==
            RecentHighConfidence(rows, className, threshold, minutes, now)
  {
    CountWhereAppend(rows, r, RecentAtLeast(className, threshold, WindowStart(now, minutes)));
  }

  /** A matching row strictly inside the window makes the check true, whatever came before. */
  lemma RecentAfterMatchingRow(rows: seq<Row>, r: Row, className: string, threshold: real, minutes: int, now: int)
    requires r.className == className && r.confidence >= threshold && r.timestamp > WindowStart(now, minutes)
    ensures RecentHighConfidence(rows + [r], className, threshold, minutes, now)
  {
    CountWhereAppend(rows, r, RecentAtLeast(className, threshold, WindowStart(now, minutes)));
  }

  // ---------------------------------------------------------------------
  // The daily aggregations (db_manager.py:81-125)
  // ---------------------------------------------------------------------

  /** The dictionary `get_pipeline_stats_summary` returns. */
  datatype PipelineSummary = PipelineSummary(totalProcessed: nat, notificationSent: nat)

  /**
   * `get_pipeline_stats_summary`: the number of rows since local midnight
   * and how many of those were notified; the second never exceeds the first.
   */
  function StatsSummary(rows: seq<Row>, todayStart: int): (s: PipelineSummary)
    ensures s.totalProcessed == CountWhere(rows, Since(todayStart))
    ensures s.notificationSent == CountWhere(rows, NotifiedSince(todayStart))
    ensures s.notificationSent <= s.totalProcessed
  {
    CountWhereMonotone(rows, NotifiedSince(todayStart), Since(todayStart));
    PipelineSummary(CountWhere(rows, Since(todayStart)), CountWhere(rows, NotifiedSince(todayStart)))
  }

  /**
   * A Python dict from class name to count, in insertion order, as
   * `dict(cursor.fetchall())` builds it.
   */
  type Stats = seq<(string, nat)>

  /** `stats.get(key)`, `None` when the key is absent. */
  function Lookup(stats: Stats, key: string): (r: Option<nat>)
    ensures r.Some? <==> key in Keys(stats)
  {
    if stats == [] then None
    else if stats[0].0 == key then Some(stats[0].1)
    else Lookup(stats[1..], key)
  }

  /** `stats.get(key, default)`. */
  function GetOr(stats: Stats, key: string, default: nat): (v: nat)
    ensures Lookup(stats, key).None? ==> v == default
    ensures Lookup(stats, key).Some? ==> v == Lookup(stats, key).value
  {
    match Lookup(stats, key)
    case Some(v) => v
    case None => default
  }

  function Keys(stats: Stats): set<string> {
    if stats == [] then {} else {stats[0].0} + Keys(stats[1..])
  }

  /** No key appears twice, as in any dict. */
  predicate DistinctKeys(stats: Stats) {
    stats == [] || (stats[0].0 !in Keys(stats[1..]) && DistinctKeys(stats[1..]))
  }

  /** `sum(stats.values())`. */
  function SumValues(stats: Stats): nat {
    if stats == [] then 0 else stats[0].1 + SumValues(stats[1..])
  }

  /** Counting one more row of class `key`: the GROUP BY step for one row. */
  function Bump(stats: Stats, key: string): Stats {
    if stats == [] then [(key, 1)]
    else if stats[0].0 == key then [(key, stats[0].1 + 1)] + stats[1..]
    else [stats[0]] + Bump(stats[1..], key)
  }

  lemma {:induction false} BumpProperties(stats: Stats, key: string)
    ensures Keys(Bump(stats, key)) == Keys(stats) + {key}
    ensures SumValues(Bump(stats, key)) == SumValues(stats) + 1
    ensures DistinctKeys(stats) ==> DistinctKeys(Bump(stats, key))
    ensures forall k :: Lookup(Bump(stats, key), k) ==
              if k == key then Some(GetOr(stats, key, 0) + 1) else Lookup(stats, k)
  {
    if stats != [] && stats[0].0 != key {
      BumpProperties(stats[1..], key);
      assert Bump(stats, key)[1..] == Bump(stats[1..], key);
    } else if stats != [] {
      assert Bump(stats, key)[1..] == stats[1..];
    }
  }

  /** The rows since `todayStart` grouped by class and counted. */
  function GroupCountSince(rows: seq<Row>, todayStart: int): (stats: Stats)
    ensures DistinctKeys(stats)
  {
    if rows == [] then []
    else
      var counts := GroupCountSince(rows[..|rows| - 1], todayStart);
      var r := rows[|rows| - 1];
      if r.timestamp >= todayStart then
        BumpProperties(counts, r.className);
        Bump(counts, r.className)
      else counts
  }

  lemma {:induction false} GroupCountSinceCounts(rows: seq<Row>, todayStart: int)
    ensures SumValues(GroupCountSince(rows, todayStart)) == CountWhere(rows, Since(todayStart))
    ensures forall c :: Lookup(GroupCountSince(rows, todayStart), c) ==
              if CountWhere(rows, ClassSince(todayStart, c)) > 0
              then Some(CountWhere(rows, ClassSince(todayStart, c))) else None
  {
    if rows != [] {
      var init := rows[..|rows| - 1];
      var r := rows[|rows| - 1];
      GroupCountSinceCounts(init, todayStart);
      if r.timestamp >= todayStart {
        BumpProperties(GroupCountSince(init, todayStart), r.className);
      }
    }
  }

  /**
   * `get_daily_stats`: each class seen since local midnight mapped to its
   * (positive) number of rows since then; a row exactly at midnight is
   * counted, earlier rows are not. The counts add up to the summary's total.
   */
  function DailyStats(rows: seq<Row>, todayStart: int): (stats: Stats)
    ensures DistinctKeys(stats)
    ensures forall c :: Lookup(stats, c).Some? <==>
              exists i :: 0 <= i < |rows| && rows[i].timestamp >= todayStart && rows[i].className == c
    ensures forall c :: Lookup(stats, c).Some? ==>
              Lookup(stats, c).value == CountWhere(rows, ClassSince(todayStart, c)) &&
              Lookup(stats, c).value > 0
    ensures SumValues(stats) == StatsSummary(rows, todayStart).totalProcessed
  {
    GroupCountSinceCounts(rows, todayStart);
    forall c {
      CountWherePositive(rows, ClassSince(todayStart, c));
    }
    GroupCountSince(rows, todayStart)
  }

  // ---------------------------------------------------------------------
  // The flag overwrite exercised by the tests (test_db_manager.py:135-142)
  // ---------------------------------------------------------------------

  /** Every row with the given id gets `isNotified := notified`; nothing else changes. */
  function SetNotified(rows: seq<Row>, id: nat, notified: bool): (rows': seq<Row>)
    ensures |rows'| == |rows|
    ensures forall i :: 0 <= i < |rows| ==>
              rows'[i] == if rows[i].id == id then rows[i].(isNotified := notified) else rows[i]
  {
    seq(|rows|, i requires 0 <= i < |rows| =>
      if rows[i].id == id then rows[i].(isNotified := notified) else rows[i])
  }

  /** Overwriting the flag twice with the same value is the same as once. */
  lemma SetNotifiedIdempotent(rows: seq<Row>, id: nat, notified: bool)
    ensures SetNotified(SetNotified(rows, id, notified), id, notified) == SetNotified(rows, id, notified)
  {
  }

  /** Ids strictly increase along the table. */
  ghost predicate IdsIncreasing(rows: seq<Row>) {
    forall i, j :: 0 <= i < j < |rows| ==> rows[i].id < rows[j].id
  }

  /**
   * A table as AUTOINCREMENT leaves it: ids start at 1, strictly increase
   * and stay below the counter, so none is reused.
   */
  ghost predicate ValidTable(rows: seq<Row>, nextId: nat) {
    && nextId >= 1
    && IdsIncreasing(rows)
    && (forall i :: 0 <= i < |rows| ==> 1 <= rows[i].id < nextId)
  }

  /**
   * The `DetectionDBManager`: the rows of the table and the next value of
   * the AUTOINCREMENT id counter.
   */
  class Store {
    var rows: seq<Row>
    var nextId: nat

    ghost predicate Valid()
      reads this
    {
      ValidTable(rows, nextId)
    }

    /**
     * `_init_db` on the database file: `CREATE TABLE IF NOT EXISTS` keeps
     * the rows earlier runs stored and the AUTOINCREMENT counter; a fresh
     * file is `existing == []` with `counter == 1`.
     */
    constructor (existing: seq<Row>, counter: nat)
      requires ValidTable(existing, counter)
      ensures Valid()
      ensures rows == existing && nextId == counter
    {
      rows := existing;
      nextId := counter;
    }

    /** `add_detection`: appends exactly one row stamped `now`, with the next id. */
    method AddDetection(className: string, confidence: real, imagePath: string, isNotified: bool, now: int)
      requires Valid()
      modifies this
      ensures Valid()
      ensures rows == old(rows) + [Row(old(nextId), now, className, confidence, Some(imagePath), isNotified)]
      ensures nextId == old(nextId) + 1
    {
      rows := rows + [Row(nextId, now, className, confidence, Some(imagePath), isNotified)];
      nextId := nextId + 1;
    }

    /** `get_recent_high_confidence_detection` on the current rows. */
    function GetRecentHighConfidenceDetection(className: string, threshold: real, minutes: int, now: int): (found: bool)
      reads this
      ensures found <==> exists i :: 0 <= i < |rows| &&
                           rows[i].className == className && rows[i].confidence >= threshold &&
                           rows[i].timestamp > now - minutes * SecondsPerMinute
    {
      RecentHighConfidence(rows, className, threshold, minutes, now)
    }

    /** `get_pipeline_stats_summary` on the current rows. */
    function GetPipelineStatsSummary(todayStart: int): (s: PipelineSummary)
      reads this
      ensures s.notificationSent <= s.totalProcessed <= |rows|
      ensures s.totalProcessed == CountWhere(rows, Since(todayStart))
      ensures s.notificationSent == CountWhere(rows, NotifiedSince(todayStart))
    {
      StatsSummary(rows, todayStart)
    }

    /** `get_daily_stats` on the current rows. */
    function GetDailyStats(todayStart: int): (stats: Stats)
      reads this
      ensures DistinctKeys(stats)
      ensures SumValues(stats) == GetPipelineStatsSummary(todayStart).totalProcessed
      ensures forall c :: Lookup(stats, c).Some? ==> Lookup(stats, c).value > 0
    {
      DailyStats(rows, todayStart)
    }

    /**
     * The register-and-decide operation the tests call
     * `register_detection_with_suppression`, taken sequentially: check for a
     * recent high-confidence row of the class, then append this detection
     * with `is_notified = not found`, returning the decision and the new id.
     */
    method RegisterDetectionWithSuppression(className: string, confidence: real, imagePath: string,
                                            threshold: real, minutes: int, now: int)
      returns (shouldNotify: bool, id: nat)
      requires Valid()
      modifies this
      ensures Valid()
      ensures shouldNotify == !RecentHighConfidence(old(rows), className, threshold, minutes, now)
      ensures id == old(nextId) && nextId == old(nextId) + 1
      ensures forall i :: 0 <= i < |old(rows)| ==> old(rows)[i].id < id
      ensures rows == old(rows) + [Row(id, now, className, confidence, Some(imagePath), shouldNotify)]
    {
      shouldNotify := !GetRecentHighConfidenceDetection(className, threshold, minutes, now);
      id := nextId;
      AddDetection(className, confidence, imagePath, shouldNotify, now);
    }

    /**
     * `update_notification_status` as the tests use it: overwrites the flag
     * of the row with that id and reports whether such a row exists.
     */
    method UpdateNotificationStatus(id: nat, notified: bool) returns (found: bool)
      requires Valid()
      modifies this
      ensures Valid()
      ensures found <==> exists i :: 0 <= i < |old(rows)| && old(rows)[i].id == id
      ensures rows == SetNotified(old(rows), id, notified) && nextId == old(nextId)
    {
      found := exists i :: 0 <= i < |rows| && rows[i].id == id;
      rows := SetNotified(rows, id, notified);
    }
  }
}
