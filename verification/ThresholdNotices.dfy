/** When a threshold alert is sent and with which value, in terms of the report and the stored rows alone
    (internal/alerts/alerts_system.go). */
module ThresholdNotices {
  import opened Options
  import opened ThresholdAlerts
  import opened ThresholdProperties
  import ThresholdRerun

  // ----- live values

  /** The highest of a value and those of a map. */
  ghost predicate IsHighest(val: real, base: real, m: map<string, real>) {
    && val >= base && (forall k :: k in m ==> val >= m[k])
    && (val == base || exists k :: k in m && val == m[k])
  }

  /** The reading in the report that the alert looks at. A temperature below one degree and an empty battery say
      that there is no sensor. */
  ghost predicate IsLive(name: Name, data: Current, val: real) {
    match name
    case CPU => val == data.cpu
    case Memory => val == data.memPct
    case Bandwidth => val == data.bandwidth
    case Disk => IsHighest(val, data.diskPct, data.extraFs)
    case Temperature => val == data.dashboardTemp && val >= 1.0
    case LoadAvg1 => val == data.load1
    case LoadAvg5 => val == data.load5
    case LoadAvg15 => val == data.load15
    case GPU => val == data.gpuPct
    case Battery => val == data.battery as real && data.battery > 0
    case Other => val == 0.0
  }

  /** The value is on the other side of the threshold than the stored flag says. A battery alert triggers below its
      threshold, all others above. */
  predicate Contradicts(a: Alert, val: real) {
    if a.name == Battery then (val < a.threshold) != a.triggered else (val > a.threshold) != a.triggered
  }

  lemma LiveIsUnique(name: Name, data: Current, val: real)
    ensures IsLive(name, data, val) <==> LiveValue(name, data) == Some(val)
  {
    if name.Disk? && IsLive(name, data, val) {
      assert val == MaxFrom(data.diskPct, data.extraFs);
    }
  }

  lemma GateMeaning(a: Alert, data: Current)
    ensures Passes(a, data) <==> exists val :: IsLive(a.name, data, val) && Contradicts(a, val)
  {
    if Passes(a, data) {
      LiveIsUnique(a.name, data, LiveValue(a.name, data).value);
    }
    forall val | IsLive(a.name, data, val) && Contradicts(a, val) ensures Passes(a, data) {
      LiveIsUnique(a.name, data, val);
    }
  }

  // ----- notices

  /** `r` is the only record with its id. */
  predicate OwnId(records: seq<Record>, r: Record) {
    r in records && forall s :: s in records && s.id == r.id ==> s == r
  }

  /** Every notice negates its record's flag. The new flag says on which side of the threshold the value is: below
      for a battery that triggers, above for everything else that does. */
  lemma NoticeSide(records: seq<Record>, data: Current, now: int, table: seq<Row>, r: Record, n: Notice)
    requires OwnId(records, r) && n in Evaluate(records, data, now, table) && n.alert == r.id
    ensures n.triggered == !r.alert.triggered
    ensures r.alert.name != Battery ==> (n.triggered <==> n.val > r.alert.threshold)
    ensures r.alert.name == Battery ==> (n.triggered <==> n.val < r.alert.threshold)
  {
    hide Evaluate;
    EveryNoticeFlips(records, data, now, table, n);
  }

  /** Exactly when an alert without a delay of more than a minute is sent, and with which value: the live one, if it
      contradicts the stored flag. */
  lemma ImmediateExactly(records: seq<Record>, data: Current, now: int, table: seq<Row>, r: Record, n: Notice)
    requires OwnId(records, r) && r.alert.minutes <= 1 && n.alert == r.id
    ensures n in Evaluate(records, data, now, table) <==>
              IsLive(r.alert.name, data, n.val) && Contradicts(r.alert, n.val) && n.triggered == !r.alert.triggered
  {
    hide Evaluate, LiveValue, Rows, Delayed;
    var rows := Rows(Delayed(records, data), now, table);
    EveryNoticeFlips(records, data, now, table, n);
    OnlySource(records, data, now, rows, r, n);
    LiveIsUnique(r.alert.name, data, n.val);
    assert n in Evaluate(records, data, now, table) <==> Source(r, n, data, now, rows);
  }

  lemma OnlySource(records: seq<Record>, data: Current, now: int, rows: seq<Row>, r: Record, n: Notice)
    requires OwnId(records, r) && n.alert == r.id
    ensures (exists s :: s in records && Source(s, n, data, now, rows)) <==> Source(r, n, data, now, rows)
  {
    hide Source;
    if s :| s in records && Source(s, n, data, now, rows) {
      SourceFlips(s, n, data, now, rows);
    }
  }

  /** The average of the window, as the sum over the count of its minutes; for disks and temperatures, the highest
      such average of a part, or 0. */
  ghost predicate IsMean(r: Record, data: Current, now: int, rows: seq<Row>, val: real) {
    var name, time := r.alert.name, now - r.alert.minutes * 60_000;
    var count := WindowCount(name, time, rows, |rows|) % 256;
    count > 0
    && if name != Disk && name != Temperature then val == WindowSum(name, time, rows, |rows|) / count as real
       else
         && val >= 0.0
         && (forall key :: PartSum(name, time, rows, |rows|, data.extraFs, key) / count as real <= val)
         && (val == 0.0 || exists key :: val == PartSum(name, time, rows, |rows|, data.extraFs, key) / count as real)
  }

  lemma AverageIsMean(r: Record, data: Current, now: int, rows: seq<Row>)
    requires r.alert.minutes > 1 && TallyOf(r, data, now, rows).count > 0
    ensures IsMean(r, data, now, rows, Average(TallyOf(r, data, now, rows)))
  {
    hide Tally, PartSum, WindowSum;
    var a := TallyOf(r, data, now, rows);
    TallyCounts(Data(r, data, now), rows, |rows|, data.extraFs);
    if r.alert.name != Disk && r.alert.name != Temperature {
      TallySums(Data(r, data, now), rows, |rows|, data.extraFs);
    } else {
      var top := MaxFrom(0.0, a.mapSums);
      DivideKeepsOrder(0.0, top, a.count as real);
      var name, time := r.alert.name, now - r.alert.minutes * 60_000;
      forall key ensures PartSum(name, time, rows, |rows|, data.extraFs, key) / a.count as real <= Average(a) {
        PartsAreWindowed(r, data, now, rows, key);
        DivideKeepsOrder(SumAt(a.mapSums, key), top, a.count as real);
      }
      if top != 0.0 {
        var k :| k in a.mapSums && a.mapSums[k] == top;
        PartsAreWindowed(r, data, now, rows, k);
      }
    }
  }

  lemma MeanIsUnique(r: Record, data: Current, now: int, rows: seq<Row>, x: real, y: real)
    requires IsMean(r, data, now, rows, x) && IsMean(r, data, now, rows, y)
    ensures x == y
  {
    hide PartSum, WindowSum, WindowCount;
    var name, time := r.alert.name, now - r.alert.minutes * 60_000;
    var count := WindowCount(name, time, rows, |rows|) % 256;
    if name == Disk || name == Temperature {
      if x != 0.0 {
        var key :| x == PartSum(name, time, rows, |rows|, data.extraFs, key) / count as real;
        assert x <= y;
      }
      if y != 0.0 {
        var key :| y == PartSum(name, time, rows, |rows|, data.extraFs, key) / count as real;
        assert y <= x;
      }
    }
  }

  /** The window has enough minutes: it starts after the first row, and at least five sixths of its minutes count. */
  ghost predicate HasMinutes(r: Record, now: int, rows: seq<Row>) {
    var time := now - r.alert.minutes * 60_000;
    && rows != [] && (forall i :: 0 <= i < |rows| ==> rows[i].stats.Some?) && rows[0].created < time
    && 6 * (WindowCount(r.alert.name, time, rows, |rows|) % 256) >= 5 * r.alert.minutes
  }

  /** Exactly when an alert with a longer delay is sent, and with which value: the average of its window, if that
      and the live value both contradict the stored flag and the window has enough minutes. */
  lemma DelayedExactly(records: seq<Record>, data: Current, now: int, table: seq<Row>, r: Record, n: Notice)
    requires OwnId(records, r) && r.alert.minutes > 1 && n.alert == r.id
    ensures var rows := Rows(Delayed(records, data), now, table);
            n in Evaluate(records, data, now, table) <==>
              && (exists val :: IsLive(r.alert.name, data, val) && Contradicts(r.alert, val))
              && HasMinutes(r, now, rows) && IsMean(r, data, now, rows, n.val)
              && Contradicts(r.alert, n.val) && n.triggered == !r.alert.triggered
  {
    hide Evaluate, LiveValue, Rows, Delayed, Passes, Tally, IsMean, IsLive, WindowCount;
    var rows := Rows(Delayed(records, data), now, table);
    EveryNoticeFlips(records, data, now, table, n);
    OnlySource(records, data, now, rows, r, n);
    GateMeaning(r.alert, data);
    DelayedSourceMeaning(r, n, data, now, rows);
    assert n in Evaluate(records, data, now, table) <==> Source(r, n, data, now, rows);
  }

  lemma DelayedSourceMeaning(r: Record, n: Notice, data: Current, now: int, rows: seq<Row>)
    requires r.alert.minutes > 1 && n.alert == r.id
    ensures Source(r, n, data, now, rows) <==>
              && Passes(r.alert, data) && HasMinutes(r, now, rows) && IsMean(r, data, now, rows, n.val)
              && Contradicts(r.alert, n.val) && n.triggered == !r.alert.triggered
  {
    hide LiveValue, Passes, Tally, IsMean, WindowCount, Average;
    var a := TallyOf(r, data, now, rows);
    TallyCounts(Data(r, data, now), rows, |rows|, data.extraFs);
    if HasMinutes(r, now, rows) {
      AverageIsMean(r, data, now, rows);
      if IsMean(r, data, now, rows, n.val) { MeanIsUnique(r, data, now, rows, n.val, Average(a)); }
    }
  }

  // ----- rows

  lemma {:induction false} SelectMeaning(table: seq<Row>, after: int, row: Row)
    ensures row in Select(table, after) <==> row in table && row.created > after
  {
    if table != [] {
      var n := |table| - 1;
      assert table == table[..n] + [table[n]];
      SelectMeaning(table[..n], after, row);
    }
  }

  /** The query returns every row younger than the longest window of a delayed alert, and a minute and a half. */
  lemma RowsReachBack(delayed: seq<Record>, now: int, table: seq<Row>, row: Row)
    requires delayed != [] && forall r :: r in delayed ==> r.alert.minutes > 1
    ensures row in Rows(delayed, now, table) <==>
              row in table && exists r :: r in delayed && row.created > now - r.alert.minutes * 60_000 - 90_000
  {
    SelectMeaning(table, Oldest(delayed, now) - QUERY_BUFFER, row);
    ThresholdRerun.OldestIsMin(delayed, now);
    assert delayed[0] in delayed;
  }

  /** The row counts: it was created at least ten seconds after the window's start; for GPUs, one is known by then. */
  ghost predicate Counts(name: Name, time: int, rows: seq<Row>, i: nat)
    requires i < |rows|
  {
    rows[i].created >= time + 10_000 && name != Other && (name == GPU ==> StatsAfter(rows, i + 1).gpu != map[])
  }

  ghost function Counted(name: Name, time: int, rows: seq<Row>, n: nat): set<nat>
    requires n <= |rows|
  {
    set i: nat | i < n && Counts(name, time, rows, i)
  }

  lemma CountsNext(name: Name, time: int, rows: seq<Row>, n: nat)
    requires n < |rows|
    ensures WindowCount(name, time, rows, n + 1) == WindowCount(name, time, rows, n) + if Counts(name, time, rows, n) then 1 else 0
  {
  }

  lemma CountedNext(name: Name, time: int, rows: seq<Row>, n: nat)
    requires n < |rows|
    ensures Counted(name, time, rows, n + 1) == Counted(name, time, rows, n) + (if Counts(name, time, rows, n) then {n} else {})
    ensures n !in Counted(name, time, rows, n)
  {
    hide Counts;
  }

  lemma {:induction false} WindowCountMeaning(name: Name, time: int, rows: seq<Row>, n: nat)
    requires n <= |rows|
    ensures WindowCount(name, time, rows, n) == |Counted(name, time, rows, n)|
  {
    if n > 0 {
      hide Counts, WindowCount, Counted;
      WindowCountMeaning(name, time, rows, n - 1);
      CountsNext(name, time, rows, n - 1);
      CountedNext(name, time, rows, n - 1);
    } else {
      assert Counted(name, time, rows, n) == {};
    }
  }
}
