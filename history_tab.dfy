/** The logic embedded in `components/tabs/HistoryTab.js`: the score-drop
    alerts, the change shown beside each row, and the oldest-first copy fed
    to the trend chart. The history arrives newest first. Dates are kept as
    the stored timestamps; their locale formatting is left out. */
module HistoryTab {
  import opened Wrappers

  /** The fields of a stored audit the tab reads. */
  datatype Entry = Entry(createdAt: int, authorityScore: int, seo: int, performance: int)

  /** One alert: the older score, the newer one and the fall between them. */
  datatype Alert = Alert(date: int, from: int, to: int, drop: int)

  /** A point of the trend chart. */
  datatype TrendPoint = TrendPoint(date: int, authority: int, seo: int, performance: int)

  /** The fall from the audit at `i` to the newer one just before it. */
  function DropAt(h: seq<Entry>, i: nat): int
    requires 1 <= i < |h|
  {
    h[i].authorityScore - h[i - 1].authorityScore
  }

  /** `drop >= 5`. */
  predicate Drops(h: seq<Entry>, i: nat)
    requires 1 <= i < |h|
  {
    DropAt(h, i) >= 5
  }

  /** The alert pushed for index `i`. */
  function AlertAt(h: seq<Entry>, i: nat): Alert
    requires 1 <= i < |h|
  {
    Alert(h[i - 1].createdAt, h[i].authorityScore, h[i - 1].authorityScore, DropAt(h, i))
  }

  /** The indices below `n` the loop raises an alert for, in increasing
      order: exactly those with a drop of at least 5. */
  function DropIndices(h: seq<Entry>, n: nat): (r: seq<nat>)
    requires 1 <= n <= |h|
    ensures |r| <= n - 1
    ensures forall k :: 0 <= k < |r| ==> 1 <= r[k] < n && Drops(h, r[k])
    ensures forall k, m :: 0 <= k < m < |r| ==> r[k] < r[m]
    ensures forall i :: 1 <= i < n && Drops(h, i) ==> i in r
  {
    if n == 1 then []
    else DropIndices(h, n - 1) + (if Drops(h, n - 1) then [n - 1] else [])
  }

  /** The alerts for a run of indices. */
  function AlertsAt(h: seq<Entry>, idx: seq<nat>): (r: seq<Alert>)
    requires forall k :: 0 <= k < |idx| ==> 1 <= idx[k] < |h|
    ensures |r| == |idx|
    ensures forall k :: 0 <= k < |idx| ==> r[k] == AlertAt(h, idx[k])
  {
    if idx == [] then [] else [AlertAt(h, idx[0])] + AlertsAt(h, idx[1..])
  }

  lemma {:induction false} AlertsAtSnoc(h: seq<Entry>, idx: seq<nat>, i: nat)
    requires forall k :: 0 <= k < |idx| ==> 1 <= idx[k] < |h|
    requires 1 <= i < |h|
    ensures AlertsAt(h, idx + [i]) == AlertsAt(h, idx) + [AlertAt(h, i)]
  {
    var lhs := AlertsAt(h, idx + [i]);
    var rhs := AlertsAt(h, idx) + [AlertAt(h, i)];
    assert |lhs| == |rhs|;
    forall k | 0 <= k < |lhs|
      ensures lhs[k] == rhs[k]
    {
      assert (idx + [i])[k] == if k < |idx| then idx[k] else i;
    }
  }

  /** The alerts raised for the indices below `n`, as the loop builds
      them: index `n - 1` adds its alert or nothing. */
  function AlertsBelow(h: seq<Entry>, n: nat): seq<Alert>
    requires 1 <= n <= |h|
  {
    if n == 1 then []
    else AlertsBelow(h, n - 1) + (if Drops(h, n - 1) then [AlertAt(h, n - 1)] else [])
  }

  /** The alerts the tab shows, for a non-empty history (an empty one
      renders the "no history" notice before any alert is computed). */
  function DropAlerts(h: seq<Entry>): seq<Alert>
    requires |h| >= 1
  {
    AlertsBelow(h, |h|)
  }

  /** The `for (let i = 1; i < history.length; i++)` loop. */
  method ScoreDropAlerts(history: seq<Entry>) returns (alerts: seq<Alert>)
    requires |history| >= 1
    ensures alerts == DropAlerts(history)
  {
    alerts := [];
    var i := 1;
    while i < |history|
      invariant 1 <= i <= |history|
      invariant alerts == AlertsBelow(history, i)
    {
      var drop := history[i].authorityScore - history[i - 1].authorityScore;
      assert drop == DropAt(history, i);
      if drop >= 5 {
        var alert := Alert(history[i - 1].createdAt, history[i].authorityScore, history[i - 1].authorityScore, drop);
        assert alert == AlertAt(history, i);
        alerts := alerts + [alert];
      } else {
        assert alerts + [] == alerts;
      }
      i := i + 1;
    }
  }

  /** The alerts below `n` are the alerts at the drop indices below `n`. */
  lemma {:induction false} AlertsBelowAreAtIndices(h: seq<Entry>, n: nat)
    requires 1 <= n <= |h|
    ensures AlertsBelow(h, n) == AlertsAt(h, DropIndices(h, n))
    decreases n
  {
    if n > 1 {
      AlertsBelowAreAtIndices(h, n - 1);
      var idx := DropIndices(h, n - 1);
      if Drops(h, n - 1) {
        AlertsAtSnoc(h, idx, n - 1);
      } else {
        assert idx + [] == idx;
      }
    }
  }

  /** The indices alerted: increasing, at most one per adjacent pair, and
      exactly those where the older score exceeds the newer by at least 5. */
  lemma DropIndicesMeans(h: seq<Entry>)
    requires |h| >= 1
    ensures var idx := DropIndices(h, |h|);
      |idx| <= |h| - 1
      && (forall k, m :: 0 <= k < m < |idx| ==> idx[k] < idx[m])
      && (forall i :: 1 <= i < |h| ==> (i in idx <==> h[i].authorityScore - h[i - 1].authorityScore >= 5))
  {
    var idx := DropIndices(h, |h|);
    forall i | 1 <= i < |h| && i in idx
      ensures Drops(h, i)
    {
      var k :| 0 <= k < |idx| && idx[k] == i;
    }
  }

  /** What the alerts are: one per alerted index, in index order, each
      carrying the older score as `from`, the newer as `to`, their
      difference, at least 5, as `drop`, and the newer audit's date. */
  lemma DropAlertsMeans(h: seq<Entry>)
    requires |h| >= 1
    ensures var idx := DropIndices(h, |h|);
      var a := DropAlerts(h);
      |a| == |idx|
      && forall k :: 0 <= k < |a| ==>
           a[k].from == h[idx[k]].authorityScore && a[k].to == h[idx[k] - 1].authorityScore
           && a[k].drop == a[k].from - a[k].to >= 5 && a[k].date == h[idx[k] - 1].createdAt
  {
    AlertsBelowAreAtIndices(h, |h|);
  }

  /** `prev ? a.authorityScore - prev.authorityScore : null` for row `i`:
      the change from the next (older) row, none for the last row. */
  function RowDelta(h: seq<Entry>, i: nat): (d: Option<int>)
    requires i < |h|
    ensures d.None? <==> i == |h| - 1
  {
    if i + 1 < |h| then Some(h[i].authorityScore - h[i + 1].authorityScore) else None
  }

  /** A row changed by `-5` or worse exactly where an alert is raised: the
      alert for index `i` is the delta of row `i - 1`, negated. */
  lemma DeltaMatchesAlert(h: seq<Entry>, i: nat)
    requires 1 <= i < |h|
    ensures RowDelta(h, i - 1) == Some(-DropAt(h, i))
    ensures Drops(h, i) <==> RowDelta(h, i - 1).value <= -5
  {
  }

  /** The sum of the deltas from row `i` down to the last row. */
  function DeltaSum(h: seq<Entry>, i: nat): int
    requires i < |h|
    decreases |h| - i
  {
    var d := RowDelta(h, i);
    if d.None? then 0 else d.value + DeltaSum(h, i + 1)
  }

  /** The deltas telescope: read from row `i` down, they add up to the
      change from the oldest audit to the one at row `i`. */
  lemma {:induction false} DeltasTelescope(h: seq<Entry>, i: nat)
    requires i < |h|
    ensures DeltaSum(h, i) == h[i].authorityScore - h[|h| - 1].authorityScore
    decreases |h| - i
  {
    if i + 1 < |h| {
      DeltasTelescope(h, i + 1);
    }
  }

  function PointOf(e: Entry): TrendPoint {
    TrendPoint(e.createdAt, e.authorityScore, e.seo, e.performance)
  }

  /** `[...history].reverse().map(...)`: the chart points, oldest first. */
  function TrendData(h: seq<Entry>): (r: seq<TrendPoint>)
    ensures |r| == |h|
    ensures forall k :: 0 <= k < |h| ==> r[k] == PointOf(h[|h| - 1 - k])
  {
    if h == [] then [] else TrendData(h[1..]) + [PointOf(h[0])]
  }

  /** The chart runs oldest to newest: reading its points backwards gives
      the table's rows in order. */
  lemma TrendDataReversed(h: seq<Entry>)
    ensures forall k :: 0 <= k < |h| ==> TrendData(h)[|h| - 1 - k] == PointOf(h[k])
  {
  }
}
