/** `get_dashboard_stats` (src/monitor.py) over in-memory copies of the
    `requests` and `blocked_content` tables. A timestamp is a number of
    seconds, rows are kept in the order they were written (so their
    timestamps ascend), and the current time is a parameter. */
module Stats {
  import opened Wrappers

  /** The columns of a `requests` row the statistics read; a NULL size is
      `None`. */
  datatype RequestRow = RequestRow(timestamp: nat, responseSize: Option<nat>)

  /** A `blocked_content` row: the four columns `recent_blocked` returns. */
  datatype BlockRow = BlockRow(timestamp: nat, clientIp: string, url: string, reason: string)

  /** The two tables, rows in insertion order. */
  datatype Database = Database(requests: seq<RequestRow>, blocked: seq<BlockRow>)

  /** The dictionary returned on success; traffic is in bytes, before the
      conversion to megabytes. */
  datatype DashboardStats = DashboardStats(
    totalRequests: nat,
    blockedRequests: nat,
    totalTrafficBytes: nat,
    recentBlocked: seq<BlockRow>)

  /** `timedelta(hours=24)` in seconds. */
  const Day: nat := 24 * 60 * 60

  /** The `LIMIT` of the recent-blocks query. */
  const RecentLimit: nat := 10

  function RequestTime(row: RequestRow): nat { row.timestamp }

  function BlockTime(row: BlockRow): nat { row.timestamp }

  /** `WHERE timestamp >= ?`: the rows at or after `threshold`, in order. */
  function Since<T>(rows: seq<T>, time: T -> nat, threshold: int): seq<T>
  {
    if rows == [] then []
    else (if time(rows[0]) >= threshold then [rows[0]] else []) + Since(rows[1..], time, threshold)
  }

  /** The filter keeps exactly the rows inside the window. */
  lemma {:induction false} SinceSpec<T>(rows: seq<T>, time: T -> nat, threshold: int)
    ensures |Since(rows, time, threshold)| <= |rows|
    ensures forall x :: x in Since(rows, time, threshold) <==> x in rows && time(x) >= threshold
  {
    if rows != [] {
      SinceSpec(rows[1..], time, threshold);
      assert rows == [rows[0]] + rows[1..];
    }
  }

  /** Writing one more row extends the windowed rows by that row exactly
      when it falls inside the window: the count is an online counter. */
  lemma {:induction false} SinceAppend<T>(rows: seq<T>, x: T, time: T -> nat, threshold: int)
    ensures Since(rows + [x], time, threshold)
         == Since(rows, time, threshold) + (if time(x) >= threshold then [x] else [])
  {
    if rows == [] {
      assert [x][1..] == [];
    } else {
      var t := rows + [x];
      assert t[0] == rows[0] && t[1..] == rows[1..] + [x];
      SinceAppend(rows[1..], x, time, threshold);
      var head := if time(rows[0]) >= threshold then [rows[0]] else [];
      assert Since(t, time, threshold) == head + Since(t[1..], time, threshold);
      assert Since(rows, time, threshold) == head + Since(rows[1..], time, threshold);
    }
  }

  /** `SUM(response_size)` with `or 0`: NULL sizes add nothing, and no
      rows gives 0. */
  function Traffic(rows: seq<RequestRow>): nat
  {
    if rows == [] then 0 else rows[0].responseSize.GetOr(0) + Traffic(rows[1..])
  }

  /** Writing one more row adds its size (0 for NULL) to the sum. */
  lemma {:induction false} TrafficAppend(rows: seq<RequestRow>, x: RequestRow)
    ensures Traffic(rows + [x]) == Traffic(rows) + x.responseSize.GetOr(0)
  {
    if rows == [] {
      assert [x][1..] == [];
    } else {
      assert (rows + [x])[1..] == rows[1..] + [x];
      TrafficAppend(rows[1..], x);
    }
  }

  /** The traffic inside the window never exceeds the traffic of all rows. */
  lemma {:induction false} WindowTrafficBound(rows: seq<RequestRow>, threshold: int)
    ensures Traffic(Since(rows, RequestTime, threshold)) <= Traffic(rows)
  {
    if rows != [] {
      WindowTrafficBound(rows[1..], threshold);
      var head := if RequestTime(rows[0]) >= threshold then [rows[0]] else [];
      var tail := Since(rows[1..], RequestTime, threshold);
      assert Since(rows, RequestTime, threshold) == head + tail;
      TrafficConcat(head, tail);
    }
  }

  lemma {:induction false} TrafficConcat(a: seq<RequestRow>, b: seq<RequestRow>)
    ensures Traffic(a + b) == Traffic(a) + Traffic(b)
  {
    if a == [] {
      assert a + b == b;
    } else {
      assert (a + b)[1..] == a[1..] + b;
      TrafficConcat(a[1..], b);
    }
  }

  /** Rows in the order they were written: timestamps never decrease. */
  predicate Chronological(rows: seq<BlockRow>)
  {
    forall i, j :: 0 <= i < j < |rows| ==> rows[i].timestamp <= rows[j].timestamp
  }

  function Reverse<T>(s: seq<T>): (r: seq<T>)
    ensures |r| == |s|
  {
    if s == [] then [] else Reverse(s[1..]) + [s[0]]
  }

  lemma {:induction false} ReverseIndex<T>(s: seq<T>)
    ensures forall j :: 0 <= j < |s| ==> Reverse(s)[j] == s[|s| - 1 - j]
  {
    if s != [] {
      ReverseIndex(s[1..]);
    }
  }

  function Min(a: nat, b: nat): nat { if a <= b then a else b }

  /** `ORDER BY timestamp DESC LIMIT 10` over all block rows: the newest
      rows, newest first. */
  function RecentBlocks(rows: seq<BlockRow>): seq<BlockRow>
  {
    Reverse(rows[|rows| - Min(|rows|, RecentLimit)..])
  }

  /** On rows written in time order, the recent list holds up to ten rows
      in descending timestamp order, each one of the rows, and no row left
      out is newer than any row shown. */
  lemma RecentBlocksSpec(rows: seq<BlockRow>)
    requires Chronological(rows)
    ensures var r := RecentBlocks(rows);
            && |r| == Min(|rows|, RecentLimit)
            && (forall i, j :: 0 <= i < j < |r| ==> r[i].timestamp >= r[j].timestamp)
            && (forall j :: 0 <= j < |r| ==> r[j] == rows[|rows| - 1 - j])
            && (forall i, j :: 0 <= i < |rows| - |r| && 0 <= j < |r| ==> rows[i].timestamp <= r[j].timestamp)
  {
    var k := |rows| - Min(|rows|, RecentLimit);
    ReverseIndex(rows[k..]);
  }

  /** `get_dashboard_stats`: `None` stands for the empty dictionary returned
      when there is no connection (`db` is `None`) or a query raises
      (`queryFails`). Otherwise the counts and the traffic cover the rows of
      the last 24 hours, and the recent list covers all block rows. */
  function GetDashboardStats(db: Option<Database>, now: int, queryFails: bool): (r: Option<DashboardStats>)
    ensures r.None? <==> db.None? || queryFails
    ensures r.Some? ==> |r.value.recentBlocked| <= RecentLimit
    ensures r.Some? ==> db.Some? && r.value.totalRequests <= |db.value.requests|
    ensures r.Some? ==> db.Some? && r.value.blockedRequests <= |db.value.blocked|
  {
    match db
    case None => None
    case Some(d) =>
      if queryFails then None
      else
        var threshold := now - Day;
        var window := Since(d.requests, RequestTime, threshold);
        SinceSpec(d.requests, RequestTime, threshold);
        SinceSpec(d.blocked, BlockTime, threshold);
        Some(DashboardStats(
          |window|,
          |Since(d.blocked, BlockTime, threshold)|,
          Traffic(window),
          RecentBlocks(d.blocked)))
  }

  /** A request logged within the last 24 hours adds one to
      `total_requests` and its size to the traffic; one logged earlier
      changes neither. */
  lemma StatsAfterRequest(d: Database, row: RequestRow, now: int)
    ensures var before := GetDashboardStats(Some(d), now, false).value;
            var after := GetDashboardStats(Some(d.(requests := d.requests + [row])), now, false).value;
            if row.timestamp >= now - Day then
              && after.totalRequests == before.totalRequests + 1
              && after.totalTrafficBytes == before.totalTrafficBytes + row.responseSize.GetOr(0)
            else
              && after.totalRequests == before.totalRequests
              && after.totalTrafficBytes == before.totalTrafficBytes
  {
    var threshold := now - Day;
    var window := Since(d.requests, RequestTime, threshold);
    SinceAppend(d.requests, row, RequestTime, threshold);
    if row.timestamp >= threshold {
      TrafficAppend(window, row);
      assert Since(d.requests + [row], RequestTime, threshold) == window + [row];
    } else {
      assert Since(d.requests + [row], RequestTime, threshold) == window;
    }
  }

  /** A block logged within the last 24 hours adds one to
      `blocked_requests`, and when written after every earlier block it
      heads the recent list. */
  lemma StatsAfterBlock(d: Database, row: BlockRow, now: int)
    requires Chronological(d.blocked)
    requires forall b :: b in d.blocked ==> b.timestamp <= row.timestamp
    ensures var before := GetDashboardStats(Some(d), now, false).value;
            var after := GetDashboardStats(Some(d.(blocked := d.blocked + [row])), now, false).value;
            && after.blockedRequests == before.blockedRequests + (if row.timestamp >= now - Day then 1 else 0)
            && after.recentBlocked[0] == row
  {
    var threshold := now - Day;
    var rows := d.blocked + [row];
    SinceAppend(d.blocked, row, BlockTime, threshold);
    var before := GetDashboardStats(Some(d), now, false).value;
    var after := GetDashboardStats(Some(d.(blocked := rows)), now, false).value;
    assert before.blockedRequests == |Since(d.blocked, BlockTime, threshold)|;
    assert after.blockedRequests == |Since(rows, BlockTime, threshold)|;
    assert after.recentBlocked == RecentBlocks(rows);
    var k := |rows| - Min(|rows|, RecentLimit);
    ReverseIndex(rows[k..]);
    assert RecentBlocks(rows)[0] == row;
  }
}
