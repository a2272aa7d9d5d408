/** What threshold alerts promise (internal/alerts/alerts_system.go). */
module ThresholdProperties {
  import opened Options
  import opened ThresholdAlerts

  // ----- every notice is a change

  /** The stored flag is negated, and the new one says on which side the value is. */
  predicate Flips(r: Record, n: Notice) {
    && n.alert == r.id && n.triggered == !r.alert.triggered
    && (n.triggered <==> Beyond(r.alert.name, n.val, r.alert.threshold))
  }

  /** What the notice of a record is based on: its live value, or its own window over the rows. */
  ghost predicate Source(r: Record, n: Notice, data: Current, now: int, rows: seq<Row>) {
    && Passes(r.alert, data)
    && if Minutes(r.alert) == 1 then ImmediateOf(r, data) == [n]
       else rows != [] && Decodable(rows) && WindowStart(r.alert, now) > rows[0].created
            && Verdict(TallyOf(r, data, now, rows)) == [n]
  }

  ghost function TallyOf(r: Record, data: Current, now: int, rows: seq<Row>): (a: AlertData)
    ensures a.min == Minutes(r.alert) && SameAlert(a, Data(r, data, now))
    ensures a == Tally(Data(r, data, now), rows, |rows|, data.extraFs)
  {
    TallyKeeps(Data(r, data, now), rows, |rows|, data.extraFs);
    Tally(Data(r, data, now), rows, |rows|, data.extraFs)
  }

  lemma SourceFlips(r: Record, n: Notice, data: Current, now: int, rows: seq<Row>)
    requires Source(r, n, data, now, rows)
    ensures Flips(r, n)
  {
  }

  lemma {:induction false} ImmediateSources(records: seq<Record>, data: Current, n: Notice)
    ensures n in Immediate(records, data) <==>
              exists r :: r in records && Passes(r.alert, data) && Minutes(r.alert) == 1 && ImmediateOf(r, data) == [n]
  {
    if records != [] {
      var k := |records| - 1;
      ImmediateSources(records[..k], data, n);
      assert records == records[..k] + [records[k]];
      assert forall r :: r in records <==> r in records[..k] || r == records[k];
    }
  }

  lemma {:induction false} VerdictSources(datas: seq<AlertData>, n: Notice)
    requires forall a :: a in datas ==> a.min >= 2
    ensures n in Verdicts(datas) <==> exists a :: a in datas && Verdict(a) == [n]
  {
    if datas != [] {
      var k := |datas| - 1;
      VerdictSources(datas[..k], n);
      assert datas == datas[..k] + [datas[k]];
      assert forall a :: a in datas <==> a in datas[..k] || a == datas[k];
    }
  }

  lemma TalliedSources(kept: seq<Record>, data: Current, now: int, rows: seq<Row>, n: Notice)
    requires forall x :: x in kept ==> Minutes(x.alert) > 1
    ensures n in Verdicts(Tallied(kept, data, now, rows)) <==> exists r :: r in kept && Verdict(TallyOf(r, data, now, rows)) == [n]
  {
    hide Tally, Verdict, Verdicts;
    var datas := Tallied(kept, data, now, rows);
    VerdictSources(datas, n);
    forall i | 0 <= i < |kept| ensures datas[i] == TallyOf(kept[i], data, now, rows) && kept[i] in kept && datas[i] in datas {
    }
    if n in Verdicts(datas) {
      var a :| a in datas && Verdict(a) == [n];
      var i :| 0 <= i < |datas| && datas[i] == a;
      assert Verdict(TallyOf(kept[i], data, now, rows)) == [n];
    }
    forall r | r in kept && Verdict(TallyOf(r, data, now, rows)) == [n] ensures n in Verdicts(datas) {
      var i :| 0 <= i < |kept| && kept[i] == r;
      assert datas[i] == TallyOf(r, data, now, rows);
    }
  }

  lemma AveragedSources(delayed: seq<Record>, data: Current, now: int, rows: seq<Row>, n: Notice)
    requires forall x :: x in delayed ==> Minutes(x.alert) > 1
    ensures n in Averaged(delayed, data, now, rows) <==>
              rows != [] && Decodable(rows)
              && exists r :: r in delayed && WindowStart(r.alert, now) > rows[0].created && Verdict(TallyOf(r, data, now, rows)) == [n]
  {
    hide Tally, Verdict, Verdicts;
    if rows != [] && Decodable(rows) {
      TalliedSources(Covered(delayed, now, rows[0].created), data, now, rows, n);
    }
  }

  /** Notices are exactly those with a source, and each flips its alert. */
  lemma EveryNoticeFlips(records: seq<Record>, data: Current, now: int, table: seq<Row>, n: Notice)
    ensures n in Evaluate(records, data, now, table) <==>
              exists r :: r in records && Source(r, n, data, now, Rows(Delayed(records, data), now, table))
    ensures n in Evaluate(records, data, now, table) ==> exists r :: r in records && Flips(r, n)
  {
    var delayed := Delayed(records, data);
    var rows := Rows(delayed, now, table);
    ImmediateSources(records, data, n);
    AveragedSources(delayed, data, now, rows, n);
    if n in Evaluate(records, data, now, table) {
      var r: Record;
      if n in Immediate(records, data) {
        r :| r in records && Passes(r.alert, data) && Minutes(r.alert) == 1 && ImmediateOf(r, data) == [n];
      } else {
        r :| r in delayed && WindowStart(r.alert, now) > rows[0].created && Verdict(TallyOf(r, data, now, rows)) == [n];
      }
      assert Source(r, n, data, now, rows);
      SourceFlips(r, n, data, now, rows);
    }
  }

  // ----- the average is the mean of the window

  ghost predicate Contributes(name: Name, stats: Stats) {
    !name.Other? && (name.GPU? ==> stats.gpu != map[])
  }

  ghost function Reading(name: Name, stats: Stats): real {
    match name
    case CPU => stats.cpu
    case Memory => stats.mem
    case Bandwidth => stats.netSent + stats.netRecv
    case LoadAvg1 => stats.load.0
    case LoadAvg5 => stats.load.1
    case LoadAvg15 => stats.load.2
    case GPU => MaxFrom(0.0, stats.gpu)
    case Battery => stats.battery as real
    case _ => 0.0
  }

  /** Of one disk or sensor. */
  function PartReading(name: Name, stats: Stats, extraFs: map<string, real>, key: string): real {
    match name
    case Disk => (if key == "root" then stats.disk else 0.0) + SumAt(extraFs, key)
    case Temperature => SumAt(stats.temperatures, key)
    case _ => 0.0
  }

  ghost function WindowCount(name: Name, time: int, rows: seq<Row>, n: nat): nat
    requires n <= |rows|
  {
    if n == 0 then 0
    else WindowCount(name, time, rows, n - 1)
         + if InWindow(rows[n - 1], time) && Contributes(name, StatsAfter(rows, n)) then 1 else 0
  }

  ghost function WindowSum(name: Name, time: int, rows: seq<Row>, n: nat): real
    requires n <= |rows|
  {
    if n == 0 then 0.0
    else WindowSum(name, time, rows, n - 1) + if InWindow(rows[n - 1], time) then Reading(name, StatsAfter(rows, n)) else 0.0
  }

  ghost function PartSum(name: Name, time: int, rows: seq<Row>, n: nat, extraFs: map<string, real>, key: string): real
    requires n <= |rows|
  {
    if n == 0 then 0.0
    else PartSum(name, time, rows, n - 1, extraFs, key)
         + if InWindow(rows[n - 1], time) then PartReading(name, StatsAfter(rows, n), extraFs, key) else 0.0
  }

  predicate IsFresh(a: AlertData) {
    a.count == 0 && a.mapSums == map[]
  }

  lemma {:induction false} TallyCounts(a: AlertData, rows: seq<Row>, n: nat, extraFs: map<string, real>)
    requires n <= |rows| && IsFresh(a)
    ensures Tally(a, rows, n, extraFs).count == WindowCount(a.name, a.time, rows, n) % 256
  {
    if n > 0 {
      TallyCounts(a, rows, n - 1, extraFs);
      TallyKeeps(a, rows, n - 1, extraFs);
    }
  }

  lemma {:induction false} TallySums(a: AlertData, rows: seq<Row>, n: nat, extraFs: map<string, real>)
    requires n <= |rows| && !a.name.Disk? && !a.name.Temperature?
    ensures Tally(a, rows, n, extraFs).val == WindowSum(a.name, a.time, rows, n)
  {
    if n > 0 {
      TallySums(a, rows, n - 1, extraFs);
      TallyKeeps(a, rows, n - 1, extraFs);
      NoGpuNoReading(StatsAfter(rows, n));
    }
  }

  lemma NoGpuNoReading(stats: Stats)
    ensures stats.gpu == map[] ==> MaxFrom(0.0, stats.gpu) == 0.0
  {
  }

  lemma {:induction false} TallyParts(a: AlertData, rows: seq<Row>, n: nat, extraFs: map<string, real>, key: string)
    requires n <= |rows| && IsFresh(a) && (a.name.Disk? || a.name.Temperature?)
    ensures SumAt(Tally(a, rows, n, extraFs).mapSums, key) == PartSum(a.name, a.time, rows, n, extraFs, key)
  {
    if n > 0 {
      TallyParts(a, rows, n - 1, extraFs, key);
      TallyKeeps(a, rows, n - 1, extraFs);
    }
  }

  /** The count is one byte wide, and what the verdict needs makes it at least two: no division by zero. */
  lemma {:induction false} VerdictNeedsMinutes(r: Record, data: Current, now: int, rows: seq<Row>)
    requires Minutes(r.alert) > 1 && Verdict(TallyOf(r, data, now, rows)) != []
    ensures TallyOf(r, data, now, rows).count == WindowCount(r.alert.name, WindowStart(r.alert, now), rows, |rows|) % 256
    ensures 2 <= TallyOf(r, data, now, rows).count <= WindowCount(r.alert.name, WindowStart(r.alert, now), rows, |rows|)
    ensures 6 * TallyOf(r, data, now, rows).count >= 5 * Minutes(r.alert)
  {
    TallyCounts(Data(r, data, now), rows, |rows|, data.extraFs);
  }

  lemma VerdictIsAverage(a: AlertData, n: Notice)
    requires a.min >= 2 && Verdict(a) == [n]
    ensures a.count > 0
    ensures n.val == (if a.name.Disk? || a.name.Temperature? then MaxFrom(0.0, a.mapSums) else a.val) / a.count as real
  {
  }

  /** A delayed notice's value is the mean of its window. */
  lemma {:induction false} DelayedNoticeIsMean(r: Record, data: Current, now: int, rows: seq<Row>, n: Notice)
    requires Minutes(r.alert) > 1 && Verdict(TallyOf(r, data, now, rows)) == [n]
    requires !r.alert.name.Disk? && !r.alert.name.Temperature?
    ensures var time := WindowStart(r.alert, now);
            var count := WindowCount(r.alert.name, time, rows, |rows|) % 256;
            count > 0 && n.val == WindowSum(r.alert.name, time, rows, |rows|) / count as real
  {
    hide Tally, Verdict, Average;
    VerdictNeedsMinutes(r, data, now, rows);
    VerdictIsAverage(TallyOf(r, data, now, rows), n);
    TallySums(Data(r, data, now), rows, |rows|, data.extraFs);
  }

  lemma {:induction false} PartsAreWindowed(r: Record, data: Current, now: int, rows: seq<Row>, key: string)
    requires r.alert.name.Disk? || r.alert.name.Temperature?
    ensures SumAt(TallyOf(r, data, now, rows).mapSums, key)
         == PartSum(r.alert.name, WindowStart(r.alert, now), rows, |rows|, data.extraFs, key)
  {
    TallyParts(Data(r, data, now), rows, |rows|, data.extraFs, key);
  }

  function PartMean(sum: real, count: nat): real
    requires count > 0
  {
    sum / count as real
  }

  lemma HighestPart(sums: map<string, real>, count: nat, key: string)
    requires count > 0
    ensures 0.0 <= PartMean(MaxFrom(0.0, sums), count)
    ensures PartMean(SumAt(sums, key), count) <= PartMean(MaxFrom(0.0, sums), count)
  {
    DivideKeepsOrder(0.0, MaxFrom(0.0, sums), count as real);
    DivideKeepsOrder(SumAt(sums, key), MaxFrom(0.0, sums), count as real);
  }

  /** For disks and temperatures it is the highest mean of a part, or 0. */
  lemma {:induction false} DelayedNoticeIsHighestMean(r: Record, data: Current, now: int, rows: seq<Row>, n: Notice, key: string)
    requires Minutes(r.alert) > 1 && Verdict(TallyOf(r, data, now, rows)) == [n]
    requires r.alert.name.Disk? || r.alert.name.Temperature?
    ensures var time := WindowStart(r.alert, now);
            var count := TallyOf(r, data, now, rows).count;
            && count > 0 && n.val >= 0.0
            && PartMean(PartSum(r.alert.name, time, rows, |rows|, data.extraFs, key), count) <= n.val
            && (n.val == PartMean(0.0, count)
                || exists k :: n.val == PartMean(PartSum(r.alert.name, time, rows, |rows|, data.extraFs, k), count))
  {
    hide Tally, Verdict, PartSum;
    var a := TallyOf(r, data, now, rows);
    VerdictIsAverage(a, n);
    assert n.val == PartMean(MaxFrom(0.0, a.mapSums), a.count);
    hide PartMean;
    HighestPart(a.mapSums, a.count, key);
    PartsAreWindowed(r, data, now, rows, key);
    if MaxFrom(0.0, a.mapSums) != 0.0 {
      var k :| k in a.mapSums && a.mapSums[k] == MaxFrom(0.0, a.mapSums);
      PartsAreWindowed(r, data, now, rows, k);
    }
  }
}
