/** Threshold alerts (internal/alerts/alerts_system.go): a live value past the threshold opens the way
    for an alert; with a delay of more than a minute, the average over the stored minutes decides. */
module ThresholdAlerts {
  import opened Options

  /** Times are milliseconds. */
  const MINUTE: int := 60_000
  const QUERY_BUFFER: int := 90_000
  const ROW_BUFFER: int := 10_000

  type Uint8 = x: int | 0 <= x < 256

  datatype Name = CPU | Memory | Bandwidth | Disk | Temperature | LoadAvg1 | LoadAvg5 | LoadAvg15 | GPU | Battery | Other

  datatype Alert = Alert(name: Name, threshold: real, minutes: Uint8, triggered: bool)

  /** A record as the query returns it. */
  datatype Record = Record(id: string, alert: Alert)

  /** What the agent has just reported. `extraFs` holds the used percentage of each extra disk. */
  datatype Current = Current(cpu: real, memPct: real, bandwidth: real, diskPct: real, extraFs: map<string, real>,
                             dashboardTemp: real, load1: real, load5: real, load15: real, gpuPct: real, battery: nat)

  /** One stored minute as it is decoded. */
  datatype Stats = Stats(cpu: real, mem: real, disk: real, netSent: real, netRecv: real, gpu: map<string, real>,
                         temperatures: map<string, real>, load: (real, real, real), battery: nat)

  /** One stored minute as it is encoded: absent fields leave the decoder's target as it is, and maps are
      merged into it. */
  datatype Encoded = Encoded(cpu: Option<real>, mem: Option<real>, disk: Option<real>, netSent: Option<real>,
                             netRecv: Option<real>, gpu: map<string, real>, temperatures: map<string, real>,
                             load: Option<(real, real, real)>, battery: Option<nat>)

  /** `stats` is None if it cannot be decoded. */
  datatype Row = Row(created: int, stats: Option<Encoded>)

  datatype Notice = Notice(alert: string, triggered: bool, val: real)

  // ----- values

  predicate IsLowAlert(name: Name) {
    name.Battery?
  }

  /** On the side of the threshold that triggers. */
  predicate Beyond(name: Name, val: real, threshold: real) {
    if IsLowAlert(name) then val < threshold else val > threshold
  }

  ghost function MaxFrom(base: real, m: map<string, real>): (r: real)
    ensures r >= base
    ensures forall k :: k in m ==> m[k] <= r
    ensures r == base || exists k :: k in m && m[k] == r
    decreases m.Keys
  {
    if m == map[] then base
    else
      var k :| k in m;
      var rest := MaxFrom(base, m - {k});
      assert forall j :: j in m && j != k ==> j in m - {k} && (m - {k})[j] == m[j];
      if m[k] > rest then m[k] else rest
  }

  method HighestOf(base: real, m: map<string, real>) returns (r: real)
    ensures r == MaxFrom(base, m)
  {
    r := base;
    var keys := m.Keys;
    while keys != {}
      invariant keys <= m.Keys
      invariant r >= base && (r == base || exists k :: k in m && m[k] == r)
      invariant forall k :: k in m && k !in keys ==> m[k] <= r
      decreases |keys|
    {
      var key :| key in keys;
      if m[key] > r {
        r := m[key];
      }
      keys := keys - {key};
    }
  }

  /** None where the alert is skipped. */
  ghost function LiveValue(name: Name, data: Current): Option<real> {
    match name
    case CPU => Some(data.cpu)
    case Memory => Some(data.memPct)
    case Bandwidth => Some(data.bandwidth)
    case Disk => Some(MaxFrom(data.diskPct, data.extraFs))
    case Temperature => if data.dashboardTemp < 1.0 then None else Some(data.dashboardTemp)
    case LoadAvg1 => Some(data.load1)
    case LoadAvg5 => Some(data.load5)
    case LoadAvg15 => Some(data.load15)
    case GPU => Some(data.gpuPct)
    case Battery => if data.battery == 0 then None else Some(data.battery as real)
    case Other => Some(0.0)
  }

  /** The live value contradicts the stored flag. */
  ghost predicate Passes(a: Alert, data: Current) {
    var val := LiveValue(a.name, data);
    val.Some? && Beyond(a.name, val.value, a.threshold) != a.triggered
  }

  function Minutes(a: Alert): (m: Uint8) {
    if a.minutes > 1 then a.minutes else 1
  }

  // ----- decoding

  function Or<T>(field: Option<T>, before: T): T {
    match field case Some(x) => x case None => before
  }

  function Unmarshal(e: Encoded, into: Stats): Stats {
    Stats(Or(e.cpu, into.cpu), Or(e.mem, into.mem), Or(e.disk, into.disk), Or(e.netSent, into.netSent),
          Or(e.netRecv, into.netRecv), into.gpu + e.gpu, into.temperatures + e.temperatures,
          Or(e.load, into.load), Or(e.battery, into.battery))
  }

  const NO_STATS: Stats := Stats(0.0, 0.0, 0.0, 0.0, 0.0, map[], map[], (0.0, 0.0, 0.0), 0)

  /** The one variable into which all rows are decoded, after `n` of them. */
  function StatsAfter(rows: seq<Row>, n: nat): Stats
    requires n <= |rows|
  {
    if n == 0 then NO_STATS
    else
      match rows[n - 1].stats
      case Some(e) => Unmarshal(e, StatsAfter(rows, n - 1))
      case None => StatsAfter(rows, n - 1)
  }

  // ----- averaging

  /** An alert being averaged: its window starts at `time`. */
  datatype AlertData = AlertData(id: string, name: Name, threshold: real, triggered: bool, min: Uint8, time: int,
                                 val: real, count: Uint8, mapSums: map<string, real>)

  function SumAt(sums: map<string, real>, key: string): real {
    if key in sums then sums[key] else 0.0
  }

  function AddAll(sums: map<string, real>, m: map<string, real>): map<string, real> {
    map key | key in sums.Keys + m.Keys :: SumAt(sums, key) + SumAt(m, key)
  }

  /** What one minute adds for one alert. */
  ghost function Add(a: AlertData, stats: Stats, extraFs: map<string, real>): AlertData {
    var counted := a.(count := (a.count + 1) % 256);
    match a.name
    case CPU => counted.(val := a.val + stats.cpu)
    case Memory => counted.(val := a.val + stats.mem)
    case Bandwidth => counted.(val := a.val + (stats.netSent + stats.netRecv))
    case Disk => counted.(mapSums := AddAll(AddAll(a.mapSums, map["root" := stats.disk]), extraFs))
    case Temperature => counted.(mapSums := AddAll(a.mapSums, stats.temperatures))
    case LoadAvg1 => counted.(val := a.val + stats.load.0)
    case LoadAvg5 => counted.(val := a.val + stats.load.1)
    case LoadAvg15 => counted.(val := a.val + stats.load.2)
    case GPU => if stats.gpu == map[] then a else counted.(val := a.val + MaxFrom(0.0, stats.gpu))
    case Battery => counted.(val := a.val + stats.battery as real)
    case Other => a
  }

  predicate InWindow(row: Row, time: int) {
    row.created - ROW_BUFFER >= time
  }

  ghost function Tally(a: AlertData, rows: seq<Row>, n: nat, extraFs: map<string, real>): AlertData
    requires n <= |rows|
  {
    if n == 0 then a.(val := 0.0)
    else
      var before := Tally(a, rows, n - 1, extraFs);
      if InWindow(rows[n - 1], a.time) then Add(before, StatsAfter(rows, n), extraFs) else before
  }

  predicate Enough(a: AlertData) {
    6 * a.count >= 5 * a.min
  }

  ghost function Average(a: AlertData): real
    requires a.count > 0
  {
    (if a.name.Disk? || a.name.Temperature? then MaxFrom(0.0, a.mapSums) else a.val) / a.count as real
  }

  /** With enough minutes, the average decides. */
  ghost function Verdict(a: AlertData): seq<Notice>
    requires a.min >= 2
  {
    if Enough(a) && Beyond(a.name, Average(a), a.threshold) != a.triggered
    then [Notice(a.id, !a.triggered, Average(a))]
    else []
  }

  // ----- the whole evaluation

  function WindowStart(a: Alert, now: int): int {
    now - Minutes(a) * MINUTE
  }

  ghost function Data(r: Record, data: Current, now: int): AlertData {
    var a := r.alert;
    var val := match LiveValue(a.name, data) case Some(x) => x case None => 0.0;
    AlertData(r.id, a.name, a.threshold, a.triggered, Minutes(a), WindowStart(a, now), val, 0, map[])
  }

  /** Alerts with a delay of one minute are sent on the live value. */
  ghost function ImmediateOf(r: Record, data: Current): seq<Notice> {
    var a := r.alert;
    if Passes(a, data) && Minutes(a) == 1 then [Notice(r.id, !a.triggered, LiveValue(a.name, data).value)] else []
  }

  ghost function Immediate(records: seq<Record>, data: Current): seq<Notice> {
    var n := |records| - 1;
    if records == [] then [] else Immediate(records[..n], data) + ImmediateOf(records[n], data)
  }

  ghost function Delayed(records: seq<Record>, data: Current): (r: seq<Record>)
    ensures forall x :: x in r <==> x in records && Passes(x.alert, data) && Minutes(x.alert) > 1
  {
    var n := |records| - 1;
    if records == [] then []
    else
      assert records == records[..n] + [records[n]];
      Delayed(records[..n], data) +
      if Passes(records[n].alert, data) && Minutes(records[n].alert) > 1 then [records[n]] else []
  }

  function Oldest(records: seq<Record>, now: int): int
  {
    var n := |records| - 1;
    if records == [] then now
    else
      var before := Oldest(records[..n], now);
      var time := WindowStart(records[n].alert, now);
      if time < before then time else before
  }

  function Select(table: seq<Row>, after: int): seq<Row> {
    var n := |table| - 1;
    if table == [] then []
    else Select(table[..n], after) + if table[n].created > after then [table[n]] else []
  }

  /** Alerts whose window starts after the first row. */
  function Covered(records: seq<Record>, now: int, first: int): (r: seq<Record>)
    ensures forall x :: x in r <==> x in records && WindowStart(x.alert, now) > first
  {
    var n := |records| - 1;
    if records == [] then []
    else
      assert records == records[..n] + [records[n]];
      Covered(records[..n], now, first) + if WindowStart(records[n].alert, now) > first then [records[n]] else []
  }

  ghost function Verdicts(datas: seq<AlertData>): seq<Notice>
    requires forall a :: a in datas ==> a.min >= 2
  {
    var n := |datas| - 1;
    if datas == [] then [] else Verdicts(datas[..n]) + Verdict(datas[n])
  }

  predicate Decodable(rows: seq<Row>) {
    forall i :: 0 <= i < |rows| ==> rows[i].stats.Some?
  }

  ghost function Tallied(records: seq<Record>, data: Current, now: int, rows: seq<Row>): (r: seq<AlertData>)
    requires forall x :: x in records ==> Minutes(x.alert) > 1
    ensures |r| == |records| && forall i :: 0 <= i < |records| ==> r[i] == Tally(Data(records[i], data, now), rows, |rows|, data.extraFs)
    ensures forall a :: a in r ==> a.min >= 2
  {
    var n := |records| - 1;
    if records == [] then []
    else
      TallyKeeps(Data(records[n], data, now), rows, |rows|, data.extraFs);
      Tallied(records[..n], data, now, rows) + [Tally(Data(records[n], data, now), rows, |rows|, data.extraFs)]
  }

  lemma {:induction false} TallyKeeps(a: AlertData, rows: seq<Row>, n: nat, extraFs: map<string, real>)
    requires n <= |rows|
    ensures SameAlert(Tally(a, rows, n, extraFs), a)
  {
    if n > 0 {
      TallyKeeps(a, rows, n - 1, extraFs);
      AddKeeps(Tally(a, rows, n - 1, extraFs), StatsAfter(rows, n), extraFs);
    }
  }

  predicate SameAlert(a: AlertData, b: AlertData) {
    && a.id == b.id && a.name == b.name && a.threshold == b.threshold && a.triggered == b.triggered
    && a.min == b.min && a.time == b.time
  }

  lemma AddKeeps(a: AlertData, stats: Stats, extraFs: map<string, real>)
    ensures SameAlert(Add(a, stats, extraFs), a)
  {
  }

  /** The rows the query returns for the alerts that passed. */
  function Rows(delayed: seq<Record>, now: int, table: seq<Row>): seq<Row> {
    Select(table, Oldest(delayed, now) - QUERY_BUFFER)
  }

  ghost function Averaged(delayed: seq<Record>, data: Current, now: int, rows: seq<Row>): seq<Notice>
    requires forall x :: x in delayed ==> Minutes(x.alert) > 1
  {
    if rows == [] || !Decodable(rows) then []
    else Verdicts(Tallied(Covered(delayed, now, rows[0].created), data, now, rows))
  }

  ghost function Later(records: seq<Record>, data: Current, now: int, table: seq<Row>): seq<Notice> {
    var delayed := Delayed(records, data);
    Averaged(delayed, data, now, Rows(delayed, now, table))
  }

  /** Everything that one report sends. */
  ghost function Evaluate(records: seq<Record>, data: Current, now: int, table: seq<Row>): seq<Notice> {
    Immediate(records, data) + Later(records, data, now, table)
  }

  /** Sending stores the new flag. */
  function Save(alerts: map<string, Alert>, notices: seq<Notice>): map<string, Alert> {
    var n := |notices| - 1;
    if notices == [] then alerts
    else
      var before := Save(alerts, notices[..n]);
      var id := notices[n].alert;
      if id in before then before[id := before[id].(triggered := notices[n].triggered)] else before
  }

  // ----- as the alert manager does it

  lemma AddAllNone(sums: map<string, real>, m: map<string, real>)
    ensures AddAll(sums, m - m.Keys) == sums
  {
    assert m - m.Keys == map[];
    forall k | k in sums ensures AddAll(sums, map[])[k] == sums[k] {
    }
    assert AddAll(sums, map[]).Keys == sums.Keys;
  }

  lemma AddAllNext(sums: map<string, real>, m: map<string, real>, keys: set<string>, key: string)
    requires key in keys && key in m
    ensures AddAll(sums, m - (keys - {key})) == AddAll(sums, m - keys)[key := SumAt(AddAll(sums, m - keys), key) + m[key]]
  {
    var before := m - keys;
    var after := m - (keys - {key});
    assert after == before[key := m[key]];
    assert AddAll(sums, after).Keys == AddAll(sums, before).Keys + {key};
    forall k | k in AddAll(sums, after) && k != key ensures AddAll(sums, after)[k] == AddAll(sums, before)[k] {
      assert SumAt(after, k) == SumAt(before, k);
    }
  }

  method AddAllSums(sums: map<string, real>, m: map<string, real>) returns (r: map<string, real>)
    ensures r == AddAll(sums, m)
  {
    r := sums;
    var keys := m.Keys;
    AddAllNone(sums, m);
    while keys != {}
      invariant keys <= m.Keys
      invariant r == AddAll(sums, m - keys)
      decreases keys
    {
      var key :| key in keys;
      AddAllNext(sums, m, keys, key);
      var sum := SumAt(r, key) + m[key];
      r := r[key := sum];
      keys := keys - {key};
    }
    assert m - keys == m;
  }

  method AddMinute(a: AlertData, stats: Stats, extraFs: map<string, real>) returns (r: AlertData)
    ensures r == Add(a, stats, extraFs)
  {
    r := a;
    match a.name {
      case CPU => r := r.(val := a.val + stats.cpu);
      case Memory => r := r.(val := a.val + stats.mem);
      case Bandwidth => r := r.(val := a.val + (stats.netSent + stats.netRecv));
      case Disk =>
        var sums := AddAllSums(a.mapSums, map["root" := stats.disk]);
        sums := AddAllSums(sums, extraFs);
        r := r.(mapSums := sums);
      case Temperature =>
        var sums := AddAllSums(a.mapSums, stats.temperatures);
        r := r.(mapSums := sums);
      case LoadAvg1 => r := r.(val := a.val + stats.load.0);
      case LoadAvg5 => r := r.(val := a.val + stats.load.1);
      case LoadAvg15 => r := r.(val := a.val + stats.load.2);
      case GPU =>
        if stats.gpu == map[] {
          return;
        }
        var maxUsage := HighestOf(0.0, stats.gpu);
        r := r.(val := a.val + maxUsage);
      case Battery => r := r.(val := a.val + stats.battery as real);
      case Other => return;
    }
    r := r.(count := (a.count + 1) % 256);
  }

  method LiveValueOf(name: Name, data: Current) returns (r: Option<real>)
    ensures r == LiveValue(name, data)
  {
    match name {
      case CPU => r := Some(data.cpu);
      case Memory => r := Some(data.memPct);
      case Bandwidth => r := Some(data.bandwidth);
      case Disk =>
        var maxUsedPct := HighestOf(data.diskPct, data.extraFs);
        r := Some(maxUsedPct);
      case Temperature => r := if data.dashboardTemp < 1.0 then None else Some(data.dashboardTemp);
      case LoadAvg1 => r := Some(data.load1);
      case LoadAvg5 => r := Some(data.load5);
      case LoadAvg15 => r := Some(data.load15);
      case GPU => r := Some(data.gpuPct);
      case Battery => r := if data.battery == 0 then None else Some(data.battery as real);
      case Other => r := Some(0.0);
    }
  }

  /** The loop over the rows: every window's sums, in place. */
  method SumStats(validAlerts: array<AlertData>, rows: seq<Row>, extraFs: map<string, real>) returns (ok: bool)
    requires rows != []
    modifies validAlerts
    ensures ok == Decodable(rows)
    ensures ok ==> forall j :: 0 <= j < validAlerts.Length ==> validAlerts[j] == Tally(old(validAlerts[j]), rows, |rows|, extraFs)
  {
    hide Add, Unmarshal;
    var stats := NO_STATS;
    for i := 0 to |rows|
      invariant stats == StatsAfter(rows, i)
      invariant forall k :: 0 <= k < i ==> rows[k].stats.Some?
      invariant forall j :: 0 <= j < validAlerts.Length ==>
                  validAlerts[j] == if i == 0 then old(validAlerts[j]) else Tally(old(validAlerts[j]), rows, i, extraFs)
    {
      if rows[i].stats == None {
        return false;
      }
      stats := Unmarshal(rows[i].stats.value, stats);
      ghost var before := validAlerts[..];
      for j := 0 to validAlerts.Length
        invariant forall k :: j <= k < validAlerts.Length ==> validAlerts[k] == before[k]
        invariant forall k :: 0 <= k < j ==> validAlerts[k] == Tally(old(validAlerts[k]), rows, i + 1, extraFs)
      {
        TallyKeeps(old(validAlerts[j]), rows, i, extraFs);
        if i == 0 {
          validAlerts[j] := validAlerts[j].(val := 0.0);
        }
        if rows[i].created - ROW_BUFFER < validAlerts[j].time {
          continue;
        }
        var added := AddMinute(validAlerts[j], stats, extraFs);
        validAlerts[j] := added;
      }
    }
    return true;
  }

  method AverageOf(a: AlertData) returns (r: real)
    requires a.count > 0
    ensures r == Average(a)
  {
    match a.name {
      case Disk =>
        var maxPct := HighestOf(0.0, a.mapSums);
        r := maxPct / a.count as real;
      case Temperature =>
        r := 0.0;
        var keys := a.mapSums.Keys;
        ghost var highest := 0.0;
        while keys != {}
          invariant keys <= a.mapSums.Keys
          invariant highest >= 0.0 && (highest == 0.0 || exists k :: k in a.mapSums && a.mapSums[k] == highest)
          invariant forall k :: k in a.mapSums && k !in keys ==> a.mapSums[k] <= highest
          invariant r == highest / a.count as real
          decreases |keys|
        {
          var key :| key in keys;
          var sumTemp := a.mapSums[key] / a.count as real;
          DivideKeepsOrder(a.mapSums[key], highest, a.count as real);
          if sumTemp > r {
            r := sumTemp;
            highest := a.mapSums[key];
          }
          keys := keys - {key};
        }
        assert highest == MaxFrom(0.0, a.mapSums);
      case _ =>
        r := a.val / a.count as real;
    }
  }

  lemma DivideKeepsOrder(x: real, y: real, n: real)
    requires n > 0.0
    ensures x / n > y / n <==> x > y
  {
    assert x == (x / n) * n && y == (y / n) * n;
    if x > y { assert x / n > y / n; }
  }

  ghost function Datas(records: seq<Record>, data: Current, now: int): seq<AlertData>
  {
    seq(|records|, i requires 0 <= i < |records| => Data(records[i], data, now))
  }

  method SelectStats(table: seq<Row>, after: int) returns (rows: seq<Row>)
    ensures rows == Select(table, after)
  {
    rows := [];
    for i := 0 to |table|
      invariant rows == Select(table[..i], after)
    {
      assert table[..i + 1][..i] == table[..i];
      if table[i].created > after {
        rows := rows + [table[i]];
      }
    }
    assert table[..|table|] == table;
  }

  method FilterAlerts(validAlerts: seq<AlertData>, first: int, ghost records: seq<Record>,
                      ghost data: Current, ghost now: int) returns (filtered: seq<AlertData>)
    requires validAlerts == Datas(records, data, now)
    ensures filtered == Datas(Covered(records, now, first), data, now)
  {
    filtered := [];
    for i := 0 to |validAlerts|
      invariant filtered == Datas(Covered(records[..i], now, first), data, now)
    {
      assert records[..i + 1][..i] == records[..i];
      if validAlerts[i].time > first {
        filtered := filtered + [validAlerts[i]];
      }
    }
    assert records[..|records|] == records;
  }

  lemma NoRecords(data: Current, now: int)
    ensures Immediate([], data) == [] && Delayed([], data) == [] && Datas([], data, now) == [] && Oldest([], now) == now
  {
  }

  lemma NextRecord(records: seq<Record>, i: nat, data: Current, now: int)
    requires i < |records|
    ensures Immediate(records[..i + 1], data) == Immediate(records[..i], data) + ImmediateOf(records[i], data)
    ensures var before := Delayed(records[..i], data);
            if Passes(records[i].alert, data) && Minutes(records[i].alert) > 1
            then Datas(Delayed(records[..i + 1], data), data, now)
                 == Datas(before, data, now) + [Data(records[i], data, now)]
                 && Oldest(Delayed(records[..i + 1], data), now)
                    == (if WindowStart(records[i].alert, now) < Oldest(before, now)
                        then WindowStart(records[i].alert, now) else Oldest(before, now))
            else Delayed(records[..i + 1], data) == before
  {
    assert records[..i + 1][..i] == records[..i];
    var before := Delayed(records[..i], data);
    assert before + [] == before;
    assert (before + [records[i]])[..|before|] == before;
  }

  lemma TalliedKnown(records: seq<Record>, data: Current, now: int, rows: seq<Row>)
    requires forall x :: x in records ==> Minutes(x.alert) > 1
    ensures forall i :: 0 <= i < |records| ==> SameAlert(Tallied(records, data, now, rows)[i], Data(records[i], data, now))
    ensures forall a :: a in Tallied(records, data, now, rows) ==> exists r :: r in records && a.id == r.id
  {
    forall i | 0 <= i < |records| ensures SameAlert(Tallied(records, data, now, rows)[i], Data(records[i], data, now)) {
      TallyKeeps(Data(records[i], data, now), rows, |rows|, data.extraFs);
      assert records[i] in records;
    }
  }

  lemma VerdictsNext(datas: seq<AlertData>, i: nat)
    requires i < |datas| && forall a :: a in datas ==> a.min >= 2
    ensures Verdicts(datas[..i + 1]) == Verdicts(datas[..i]) + Verdict(datas[i])
  {
    assert datas[..i + 1][..i] == datas[..i];
  }

  lemma SaveNothing(alerts: map<string, Alert>)
    ensures Save(alerts, []) == alerts
  {
  }

  lemma {:induction false} SaveKeeps(alerts: map<string, Alert>, notices: seq<Notice>)
    ensures Save(alerts, notices).Keys == alerts.Keys
  {
    if notices != [] { SaveKeeps(alerts, notices[..|notices| - 1]); }
  }

  lemma {:induction false} SaveAppend(alerts: map<string, Alert>, first: seq<Notice>, second: seq<Notice>)
    ensures Save(alerts, first + second) == Save(Save(alerts, first), second)
  {
    if second == [] {
      assert first + second == first;
    } else {
      var n := |second| - 1;
      assert (first + second)[..|first + second| - 1] == first + second[..n];
      SaveAppend(alerts, first, second[..n]);
    }
  }

  /** The filtered alerts are summed up in an array of their own. */
  method AverageWindows(filtered: seq<AlertData>, rows: seq<Row>, data: Current, ghost kept: seq<Record>, ghost now: int)
      returns (ok: bool, summed: seq<AlertData>)
    requires rows != [] && filtered == Datas(kept, data, now)
    requires forall x :: x in kept ==> Minutes(x.alert) > 1
    ensures ok == Decodable(rows)
    ensures ok ==> summed == Tallied(kept, data, now, rows)
    ensures ok ==> forall a :: a in summed ==> a.min >= 2 && exists r :: r in kept && a.id == r.id
  {
    hide Tally, Data;
    var working := new AlertData[|filtered|](i requires 0 <= i < |filtered| => filtered[i]);
    ok := SumStats(working, rows, data.extraFs);
    summed := working[..];
    TalliedKnown(kept, data, now, rows);
  }

  lemma AveragedIs(delayed: seq<Record>, kept: seq<Record>, data: Current, now: int, rows: seq<Row>)
    requires forall x :: x in delayed ==> Minutes(x.alert) > 1
    requires rows != [] && kept == Covered(delayed, now, rows[0].created)
    ensures forall x :: x in kept ==> x in delayed
    ensures Averaged(delayed, data, now, rows) == if Decodable(rows) then Verdicts(Tallied(kept, data, now, rows)) else []
  {
  }

  /** From the query on: what is summed up and ready for its verdict. */
  method AverageDelayed(validAlerts: seq<AlertData>, oldestTime: int, data: Current, table: seq<Row>,
                        ghost delayed: seq<Record>, ghost now: int) returns (summed: seq<AlertData>)
    requires forall x :: x in delayed ==> Minutes(x.alert) > 1
    requires validAlerts == Datas(delayed, data, now) && oldestTime == Oldest(delayed, now)
    ensures forall a :: a in summed ==> a.min >= 2 && exists r :: r in delayed && a.id == r.id
    ensures Verdicts(summed) == Averaged(delayed, data, now, Rows(delayed, now, table))
  {
    hide Verdict, Tally, Data, WindowStart;
    summed := [];
    var systemStats := SelectStats(table, oldestTime - QUERY_BUFFER);
    if systemStats == [] {
      return;
    }
    var filteredAlerts := FilterAlerts(validAlerts, systemStats[0].created, delayed, data, now);
    ghost var kept := Covered(delayed, now, systemStats[0].created);
    AveragedIs(delayed, kept, data, now, systemStats);
    var ok, tallied := AverageWindows(filteredAlerts, systemStats, data, kept, now);
    ghost var averaged := Averaged(delayed, data, now, systemStats);
    if !ok {
      assert averaged == [];
      return;
    }
    assert averaged == Verdicts(tallied);
    return tallied;
  }

  /** The records still exist. */
  predicate Known(alerts: map<string, Alert>, records: seq<Record>) {
    forall r :: r in records ==> r.id in alerts
  }

  class AlertManager {
    var alerts: map<string, Alert>
    var sent: seq<Notice>

    constructor (alerts: map<string, Alert>)
      ensures this.alerts == alerts && sent == []
    {
      this.alerts, sent := alerts, [];
    }

    method SendSystemAlert(n: Notice)
      requires n.alert in alerts
      modifies this
      ensures alerts == Save(old(alerts), [n]) && sent == old(sent) + [n]
    {
      assert [n][..0] == [];
      alerts := alerts[n.alert := alerts[n.alert].(triggered := n.triggered)];
      sent := sent + [n];
    }

    /** The gate for one record; what passes it is sent at once or returned for averaging. */
    method HandleLiveValue(r: Record, data: Current, now: int) returns (alert: Option<AlertData>)
      requires r.id in alerts
      modifies this
      ensures alerts == Save(old(alerts), ImmediateOf(r, data)) && sent == old(sent) + ImmediateOf(r, data)
      ensures alert == if Passes(r.alert, data) && Minutes(r.alert) > 1 then Some(Data(r, data, now)) else None
    {
      var a := r.alert;
      var live := LiveValueOf(a.name, data);
      if live == None {
        return None;
      }
      var val := live.value;
      if IsLowAlert(a.name) {
        if (!a.triggered && val >= a.threshold) || (a.triggered && val < a.threshold) {
          return None;
        }
      } else {
        if (!a.triggered && val <= a.threshold) || (a.triggered && val > a.threshold) {
          return None;
        }
      }
      var min := if a.minutes > 1 then a.minutes else 1;
      if min == 1 {
        var triggered := if IsLowAlert(a.name) then val < a.threshold else val > a.threshold;
        SendSystemAlert(Notice(r.id, triggered, val));
        return None;
      }
      return Some(AlertData(r.id, a.name, a.threshold, a.triggered, min, now - min * MINUTE, val, 0, map[]));
    }

    /** The loop over the records. */
    method HandleLiveValues(records: seq<Record>, data: Current, now: int) returns (validAlerts: seq<AlertData>, oldestTime: int)
      requires Known(alerts, records)
      modifies this
      ensures alerts == Save(old(alerts), Immediate(records, data)) && sent == old(sent) + Immediate(records, data)
      ensures validAlerts == Datas(Delayed(records, data), data, now)
      ensures oldestTime == Oldest(Delayed(records, data), now)
    {
      hide ImmediateOf, Passes, WindowStart, Minutes, LiveValue, Save, Immediate, Delayed, Datas, Oldest;
      validAlerts, oldestTime := [], now;
      SaveNothing(alerts);
      NoRecords(data, now);
      for i := 0 to |records|
        invariant alerts == Save(old(alerts), Immediate(records[..i], data))
        invariant sent == old(sent) + Immediate(records[..i], data)
        invariant validAlerts == Datas(Delayed(records[..i], data), data, now)
        invariant oldestTime == Oldest(Delayed(records[..i], data), now)
      {
        ghost var immediate := Immediate(records[..i], data);
        ghost var next := ImmediateOf(records[i], data);
        NextRecord(records, i, data, now);
        SaveAppend(old(alerts), immediate, next);
        SaveKeeps(old(alerts), immediate);
        assert old(sent) + (immediate + next) == old(sent) + immediate + next;
        var alert := HandleLiveValue(records[i], data, now);
        if alert.Some? {
          if alert.value.time < oldestTime {
            oldestTime := alert.value.time;
          }
          validAlerts := validAlerts + [alert.value];
        }
      }
      assert records[..|records|] == records;
    }

    /** `records` are the system's alerts other than its status alerts; `table` its one-minute rows in
        order of creation. */
    method HandleSystemAlerts(records: seq<Record>, data: Current, now: int, table: seq<Row>)
      requires Known(alerts, records)
      modifies this
      ensures alerts == Save(old(alerts), Evaluate(records, data, now, table))
      ensures sent == old(sent) + Evaluate(records, data, now, table)
    {
      ghost var immediate := Immediate(records, data);
      ghost var later := Later(records, data, now, table);
      SaveKeeps(alerts, immediate);
      SaveAppend(alerts, immediate, later);
      assert sent + (immediate + later) == sent + immediate + later;
      var validAlerts, oldestTime := HandleLiveValues(records, data, now);
      var summed := AverageDelayed(validAlerts, oldestTime, data, table, Delayed(records, data), now);
      SendVerdicts(summed);
    }

    method SendVerdict(alert: AlertData)
      requires alert.min >= 2 && alert.id in alerts
      modifies this
      ensures alerts == Save(old(alerts), Verdict(alert)) && sent == old(sent) + Verdict(alert)
    {
      if 6 * alert.count >= 5 * alert.min {
        var val := AverageOf(alert);
        if IsLowAlert(alert.name) {
          if !alert.triggered && val < alert.threshold {
            SendSystemAlert(Notice(alert.id, true, val));
          } else if alert.triggered && val >= alert.threshold {
            SendSystemAlert(Notice(alert.id, false, val));
          }
        } else {
          if !alert.triggered && val > alert.threshold {
            SendSystemAlert(Notice(alert.id, true, val));
          } else if alert.triggered && val <= alert.threshold {
            SendSystemAlert(Notice(alert.id, false, val));
          }
        }
      }
    }

    method SendVerdicts(datas: seq<AlertData>)
      requires forall a :: a in datas ==> a.min >= 2 && a.id in alerts
      modifies this
      ensures alerts == Save(old(alerts), Verdicts(datas)) && sent == old(sent) + Verdicts(datas)
    {
      hide Verdict;
      ghost var was := alerts;
      for i := 0 to |datas|
        invariant alerts == Save(was, Verdicts(datas[..i]))
        invariant sent == old(sent) + Verdicts(datas[..i])
      {
        VerdictsNext(datas, i);
        SaveAppend(was, Verdicts(datas[..i]), Verdict(datas[i]));
        SaveKeeps(was, Verdicts(datas[..i]));
        SendVerdict(datas[i]);
      }
      assert datas[..|datas|] == datas;
    }
  }
}
