/** Evaluating the same report again, once the first evaluation's flags are stored
    (internal/alerts/alerts_system.go). */
module ThresholdRerun {
  import opened Options
  import opened ThresholdAlerts
  import opened ThresholdProperties
  import opened ThresholdLeaning

  // ----- rows that do not lean on earlier ones

  /** The encoded row has every field the alert reads. */
  predicate CarriesAll(name: Name, e: Encoded) {
    match name
    case CPU => e.cpu.Some?
    case Memory => e.mem.Some?
    case Bandwidth => e.netSent.Some? && e.netRecv.Some?
    case Disk => e.disk.Some?
    case LoadAvg1 => e.load.Some?
    case LoadAvg5 => e.load.Some?
    case LoadAvg15 => e.load.Some?
    case Battery => e.battery.Some?
    case _ => true
  }

  /** No sensor or GPU that the alert reads disappears from one row to the next. */
  predicate KeepsKeys(name: Name, e: Encoded, next: Encoded) {
    && (name.Temperature? ==> e.temperatures.Keys <= next.temperatures.Keys)
    && (name.GPU? ==> e.gpu.Keys <= next.gpu.Keys)
  }

  predicate Settled(name: Name, rows: seq<Row>) {
    && (forall i :: 0 <= i < |rows| && rows[i].stats.Some? ==> CarriesAll(name, rows[i].stats.value))
    && (forall i, j :: 0 <= i < j < |rows| && rows[i].stats.Some? && rows[j].stats.Some? ==>
          KeepsKeys(name, rows[i].stats.value, rows[j].stats.value))
  }

  /** A settled row is read as if it were decoded on its own. */
  lemma {:induction false} SettledReads(name: Name, rows: seq<Row>, n: nat)
    requires 0 < n <= |rows| && Decodable(rows) && Settled(name, rows)
    ensures SameFor(name, StatsAfter(rows, n), Unmarshal(rows[n - 1].stats.value, NO_STATS))
  {
    var e := rows[n - 1].stats.value;
    assert CarriesAll(name, e);
    assert map[] + e.gpu == e.gpu && map[] + e.temperatures == e.temperatures;
    if n > 1 {
      SettledReads(name, rows, n - 1);
      var d := rows[n - 2].stats.value;
      assert map[] + d.gpu == d.gpu && map[] + d.temperatures == d.temperatures;
      assert KeepsKeys(name, d, e);
      if name.Temperature? { assert d.temperatures + e.temperatures == e.temperatures; }
      if name.GPU? { assert d.gpu + e.gpu == e.gpu; }
    }
  }

  /** Settled rows stand alone in every window, whatever rows before it are left out. */
  lemma SettledStandsAlone(name: Name, time: int, rows: seq<Row>, k: nat)
    requires Decodable(rows) && Settled(name, rows)
    ensures StandsAlone(name, time, rows, k)
  {
    forall i: nat, f | k <= i < |rows| && InWindow(rows[i], time) && Uses(name, f) ensures !Leans(rows, k, i, f) {
      assert CarriesAll(name, rows[i].stats.value);
      if Leans(rows, k, i, f) {
        var j :| 0 <= j < k && Has(rows[j], f);
        assert KeepsKeys(name, rows[j].stats.value, rows[i].stats.value);
        assert Has(rows[i], f);
      }
    }
  }

  // ----- the query

  predicate InOrder(table: seq<Row>) {
    forall i, j :: 0 <= i < j < |table| ==> table[i].created <= table[j].created
  }

  lemma {:induction false} SelectKeepsOrder(table: seq<Row>, after: int)
    requires InOrder(table)
    ensures InOrder(Select(table, after))
    ensures forall row :: row in Select(table, after) ==> row in table
  {
    if table != [] {
      var n := |table| - 1;
      SelectKeepsOrder(table[..n], after);
      var before := Select(table[..n], after);
      forall i | 0 <= i < |before| ensures before[i].created <= table[n].created {
        assert before[i] in table[..n];
      }
    }
  }

  /** In a table in order of creation, a later bound drops a prefix. */
  lemma {:induction false} SelectDrops(table: seq<Row>, after: int, later: int) returns (k: nat)
    requires InOrder(table) && after <= later
    ensures k <= |Select(table, after)| && Select(table, later) == Select(table, after)[k..]
    ensures forall i :: 0 <= i < k ==> Select(table, after)[i].created <= later
    ensures k == |Select(table, after)| - |Select(table, later)|
  {
    k := 0;
    if table != [] {
      var n := |table| - 1;
      var before := Select(table[..n], after);
      if table[n].created <= later {
        NothingLater(table, later);
        SelectKeepsOrder(table, after);
        k := |Select(table, after)|;
        forall i | 0 <= i < k ensures Select(table, after)[i].created <= later {
          assert Select(table, after)[i] in table;
        }
      } else {
        k := SelectDrops(table[..n], after, later);
      }
    }
  }

  lemma {:induction false} NothingLater(table: seq<Row>, later: int)
    requires forall row :: row in table ==> row.created <= later
    ensures Select(table, later) == []
  {
    if table != [] {
      NothingLater(table[..|table| - 1], later);
      assert table[|table| - 1] in table;
    }
  }

  lemma {:induction false} OldestIsMin(records: seq<Record>, now: int)
    ensures Oldest(records, now) <= now
    ensures forall r :: r in records ==> Oldest(records, now) <= WindowStart(r.alert, now)
    ensures Oldest(records, now) == now || exists r :: r in records && Oldest(records, now) == WindowStart(r.alert, now)
  {
    if records != [] {
      var n := |records| - 1;
      OldestIsMin(records[..n], now);
      assert records == records[..n] + [records[n]];
      assert records[n] in records;
    }
  }

  // ----- the second evaluation

  predicate DistinctIds(records: seq<Record>) {
    forall i, j :: 0 <= i < j < |records| ==> records[i].id != records[j].id
  }

  predicate Loaded(alerts: map<string, Alert>, records: seq<Record>) {
    forall r :: r in records ==> r.id in alerts && alerts[r.id] == r.alert
  }

  /** The records as the next query returns them. */
  function Reload(alerts: map<string, Alert>, records: seq<Record>): seq<Record>
    requires Known(alerts, records)
  {
    seq(|records|, i requires 0 <= i < |records| => Record(records[i].id, alerts[records[i].id]))
  }

  predicate Sent(notices: seq<Notice>, id: string) {
    exists n :: n in notices && n.alert == id
  }

  lemma {:induction false} SavedFlag(alerts: map<string, Alert>, notices: seq<Notice>, id: string, triggered: bool)
    requires id in alerts && forall n :: n in notices && n.alert == id ==> n.triggered == triggered
    ensures id in Save(alerts, notices)
    ensures Save(alerts, notices)[id] == if Sent(notices, id) then alerts[id].(triggered := triggered) else alerts[id]
  {
    if notices != [] {
      var k := |notices| - 1;
      assert notices == notices[..k] + [notices[k]];
      assert notices[k] in notices;
      SavedFlag(alerts, notices[..k], id, triggered);
      assert Sent(notices, id) <==> Sent(notices[..k], id) || notices[k].alert == id;
    }
  }

  /** A record that was sent is negated and no longer passes the gate; any other is as it was. */
  lemma ReloadedRecord(alerts: map<string, Alert>, records: seq<Record>, data: Current, now: int, table: seq<Row>, r: Record)
    requires Loaded(alerts, records) && DistinctIds(records) && r in records
    ensures var sent := Evaluate(records, data, now, table);
            && r.id in Save(alerts, sent)
            && Save(alerts, sent)[r.id] == (if Sent(sent, r.id) then r.alert.(triggered := !r.alert.triggered) else r.alert)
            && (Sent(sent, r.id) ==> Passes(r.alert, data) && !Passes(Save(alerts, sent)[r.id], data))
  {
    hide Evaluate, Verdict, Tally, Save;
    var sent := Evaluate(records, data, now, table);
    forall n | n in sent && n.alert == r.id ensures n.triggered == !r.alert.triggered && Passes(r.alert, data) {
      EveryNoticeFlips(records, data, now, table, n);
      var rows := Rows(Delayed(records, data), now, table);
      var r0 :| r0 in records && Source(r0, n, data, now, rows);
      SourceFlips(r0, n, data, now, rows);
      assert r0 == r;
    }
    SavedFlag(alerts, sent, r.id, !r.alert.triggered);
  }

  /** What the second evaluation may still send. */
  ghost predicate Pending(records: seq<Record>, data: Current, now: int, table: seq<Row>, again: seq<Record>) {
    var sent := Evaluate(records, data, now, table);
    && (forall r :: r in again && Passes(r.alert, data) ==> r in records && !Sent(sent, r.id))
    && (forall r :: r in records && !Sent(sent, r.id) ==> r in again)
  }

  lemma ReloadedPending(alerts: map<string, Alert>, records: seq<Record>, data: Current, now: int, table: seq<Row>)
    requires Loaded(alerts, records) && DistinctIds(records)
    ensures Known(Save(alerts, Evaluate(records, data, now, table)), records)
    ensures Pending(records, data, now, table, Reload(Save(alerts, Evaluate(records, data, now, table)), records))
  {
    hide Evaluate, Save, Passes;
    var sent := Evaluate(records, data, now, table);
    var saved := Save(alerts, sent);
    forall r | r in records ensures r.id in saved {
      ReloadedRecord(alerts, records, data, now, table, r);
    }
    var again := Reload(saved, records);
    forall r | r in again && Passes(r.alert, data) ensures r in records && !Sent(sent, r.id) {
      var i :| 0 <= i < |again| && again[i] == r;
      ReloadedRecord(alerts, records, data, now, table, records[i]);
    }
    forall r | r in records && !Sent(sent, r.id) ensures r in again {
      var i :| 0 <= i < |records| && records[i] == r;
      ReloadedRecord(alerts, records, data, now, table, r);
      assert again[i] == r;
    }
  }

  /** How many rows of the first query the second leaves out. */
  function Dropped(table: seq<Row>, oldest: int, newest: int): int {
    |Select(table, oldest - QUERY_BUFFER)| - |Select(table, newest - QUERY_BUFFER)|
  }

  lemma DroppedAreBefore(table: seq<Row>, oldest: int, newest: int, time: int)
    requires InOrder(table) && oldest <= newest <= time
    ensures var rows := Select(table, oldest - QUERY_BUFFER);
            var k := Dropped(table, oldest, newest);
            0 <= k <= |rows| && Select(table, newest - QUERY_BUFFER) == rows[k..] && Before(rows, k, time)
  {
    hide Select;
    var k := SelectDrops(table, oldest - QUERY_BUFFER, newest - QUERY_BUFFER);
  }

  /** The rows cover the record's window, with enough minutes for a verdict. */
  ghost predicate Judged(r: Record, now: int, rows: seq<Row>) {
    && rows != [] && Decodable(rows) && WindowStart(r.alert, now) > rows[0].created
    && 6 * (WindowCount(r.alert.name, WindowStart(r.alert, now), rows, |rows|) % 256) >= 5 * Minutes(r.alert)
  }

  lemma SourceIsJudged(r: Record, n: Notice, data: Current, now: int, rows: seq<Row>)
    requires Source(r, n, data, now, rows) && Minutes(r.alert) > 1
    ensures Judged(r, now, rows)
  {
    hide Tally, WindowCount;
    TallyCounts(Data(r, data, now), rows, |rows|, data.extraFs);
  }

  /** No row in the record's window leans on one that the second query leaves out. */
  ghost predicate Independent(r: Record, now: int, table: seq<Row>, oldest: int, newest: int)
    requires 0 <= Dropped(table, oldest, newest)
  {
    StandsAlone(r.alert.name, WindowStart(r.alert, now), Select(table, oldest - QUERY_BUFFER), Dropped(table, oldest, newest))
  }

  /** A record averaged again has the same verdict on the rows of the second query. */
  lemma SameVerdict(r: Record, data: Current, now: int, table: seq<Row>, oldest: int, newest: int)
    requires InOrder(table) && oldest <= newest <= WindowStart(r.alert, now) && Minutes(r.alert) > 1
    requires 0 <= Dropped(table, oldest, newest) && Independent(r, now, table, oldest, newest)
    requires var rows2 := Select(table, newest - QUERY_BUFFER);
             rows2 != [] && WindowStart(r.alert, now) > rows2[0].created
    ensures var rows := Select(table, oldest - QUERY_BUFFER);
            rows != [] && WindowStart(r.alert, now) > rows[0].created
            && TallyOf(r, data, now, rows) == TallyOf(r, data, now, Select(table, newest - QUERY_BUFFER))
  {
    hide Tally, Select;
    var rows := Select(table, oldest - QUERY_BUFFER);
    var k := Dropped(table, oldest, newest);
    DroppedAreBefore(table, oldest, newest, WindowStart(r.alert, now));
    SelectKeepsOrder(table, oldest - QUERY_BUFFER);
    assert rows[k..][0] == rows[k] && rows[0].created <= rows[k].created;
    SuffixTally(Data(r, data, now), rows, k, |rows| - k, data.extraFs);
  }

  lemma AllSame(records: seq<Record>, again: seq<Record>, data: Current, now: int, table: seq<Row>)
    requires Pending(records, data, now, table, again)
    ensures Oldest(Delayed(records, data), now) <= Oldest(Delayed(again, data), now)
    ensures (forall r :: r in Delayed(records, data) ==> !Sent(Evaluate(records, data, now, table), r.id)) ==>
              Oldest(Delayed(records, data), now) == Oldest(Delayed(again, data), now)
  {
    hide Evaluate, Passes, Oldest, WindowStart;
    OldestIsMin(Delayed(records, data), now);
    OldestIsMin(Delayed(again, data), now);
  }

  /** What a record was sent for is its own source. */
  lemma SentHasSource(records: seq<Record>, data: Current, now: int, table: seq<Row>, r: Record)
    requires DistinctIds(records) && r in records
    ensures Sent(Evaluate(records, data, now, table), r.id) <==>
              exists n :: Source(r, n, data, now, Rows(Delayed(records, data), now, table))
  {
    hide Evaluate, Verdict, Tally, Passes, Select;
    var rows := Rows(Delayed(records, data), now, table);
    if Sent(Evaluate(records, data, now, table), r.id) {
      var n :| n in Evaluate(records, data, now, table) && n.alert == r.id;
      EveryNoticeFlips(records, data, now, table, n);
      var r0 :| r0 in records && Source(r0, n, data, now, rows);
      SourceFlips(r0, n, data, now, rows);
      assert r0 == r;
    }
    forall n | Source(r, n, data, now, rows) ensures Sent(Evaluate(records, data, now, table), r.id) {
      EveryNoticeFlips(records, data, now, table, n);
      SourceFlips(r, n, data, now, rows);
    }
  }

  /** If a delayed alert was sent, the rows could be decoded and were enough. */
  lemma SentMeansJudged(records: seq<Record>, data: Current, now: int, table: seq<Row>, r: Record)
    requires DistinctIds(records) && r in Delayed(records, data) && Sent(Evaluate(records, data, now, table), r.id)
    ensures Judged(r, now, Rows(Delayed(records, data), now, table))
  {
    hide Evaluate, Passes, Select, Source, Judged;
    SentHasSource(records, data, now, table, r);
    var n :| Source(r, n, data, now, Rows(Delayed(records, data), now, table));
    SourceIsJudged(r, n, data, now, Rows(Delayed(records, data), now, table));
  }

  /** The second query starts where the first did, or later, and then the rows could be decoded. */
  lemma LaterOrSame(records: seq<Record>, again: seq<Record>, data: Current, now: int, table: seq<Row>)
    requires Pending(records, data, now, table, again) && DistinctIds(records)
    ensures Oldest(Delayed(records, data), now) <= Oldest(Delayed(again, data), now)
    ensures Oldest(Delayed(records, data), now) == Oldest(Delayed(again, data), now)
         || Decodable(Rows(Delayed(records, data), now, table))
  {
    hide Evaluate, Passes, Oldest, Select, Delayed;
    AllSame(records, again, data, now, table);
    if exists x :: x in Delayed(records, data) && Sent(Evaluate(records, data, now, table), x.id) {
      var x :| x in Delayed(records, data) && Sent(Evaluate(records, data, now, table), x.id);
      SentMeansJudged(records, data, now, table, x);
    }
  }

  lemma DelayedBefore(delayed: seq<Record>, delayed2: seq<Record>, data: Current, now: int, table: seq<Row>, r: Record, n: Notice)
    requires InOrder(table) && r in delayed && r in delayed2 && Minutes(r.alert) > 1
    requires Oldest(delayed, now) <= Oldest(delayed2, now)
    requires Oldest(delayed, now) == Oldest(delayed2, now)
          || (Decodable(Rows(delayed, now, table)) && Undisturbed(delayed, delayed2, now, table))
    requires Source(r, n, data, now, Rows(delayed2, now, table))
    ensures Source(r, n, data, now, Rows(delayed, now, table))
  {
    hide Source, StandsAlone, Select, Oldest, WindowStart, Judged;
    if Oldest(delayed, now) != Oldest(delayed2, now) {
      OldestIsMin(delayed2, now);
      SourceIsJudged(r, n, data, now, Rows(delayed2, now, table));
      DelayedSource(r, n, data, now, table, Oldest(delayed, now), Oldest(delayed2, now));
    }
  }

  /** The second query starts where the first did, or no row leans on one that it leaves out, in the window of
      an alert that is still delayed and has enough minutes. */
  ghost predicate Undisturbed(delayed: seq<Record>, delayed2: seq<Record>, now: int, table: seq<Row>) {
    var oldest, newest := Oldest(delayed, now), Oldest(delayed2, now);
    oldest == newest
    || (0 <= Dropped(table, oldest, newest)
        && forall r :: r in delayed2 && Judged(r, now, Rows(delayed2, now, table)) ==> Independent(r, now, table, oldest, newest))
  }

  /** Whatever would be sent again was sent before. */
  lemma SourceBefore(records: seq<Record>, again: seq<Record>, data: Current, now: int, table: seq<Row>, r: Record, n: Notice)
    requires Pending(records, data, now, table, again) && InOrder(table) && DistinctIds(records)
    requires r in again && Source(r, n, data, now, Rows(Delayed(again, data), now, table))
    requires Undisturbed(Delayed(records, data), Delayed(again, data), now, table)
    ensures r in records && Source(r, n, data, now, Rows(Delayed(records, data), now, table))
  {
    hide Evaluate, Verdict, Tally, Passes, Undisturbed, Select, WindowStart, Oldest, Rows;
    if Minutes(r.alert) > 1 {
      LaterOrSame(records, again, data, now, table);
      DelayedBefore(Delayed(records, data), Delayed(again, data), data, now, table, r, n);
    }
  }

  lemma DelayedSource(r: Record, n: Notice, data: Current, now: int, table: seq<Row>, oldest: int, newest: int)
    requires InOrder(table) && oldest <= newest <= WindowStart(r.alert, now) && Minutes(r.alert) > 1
    requires Decodable(Select(table, oldest - QUERY_BUFFER))
    requires 0 <= Dropped(table, oldest, newest) && Independent(r, now, table, oldest, newest)
    requires Source(r, n, data, now, Select(table, newest - QUERY_BUFFER))
    ensures Source(r, n, data, now, Select(table, oldest - QUERY_BUFFER))
  {
    hide Verdict, Tally, Passes, StandsAlone, Select;
    SameVerdict(r, data, now, table, oldest, newest);
  }

  lemma NothingAgain(records: seq<Record>, again: seq<Record>, data: Current, now: int, table: seq<Row>, n: Notice)
    requires Pending(records, data, now, table, again) && InOrder(table) && DistinctIds(records)
    requires Undisturbed(Delayed(records, data), Delayed(again, data), now, table)
    ensures n !in Evaluate(again, data, now, table)
  {
    hide Evaluate, Verdict, Tally, Passes, Undisturbed, Select, WindowStart, Oldest;
    if n in Evaluate(again, data, now, table) {
      EveryNoticeFlips(again, data, now, table, n);
      EveryNoticeFlips(records, data, now, table, n);
      var r :| r in again && Source(r, n, data, now, Rows(Delayed(again, data), now, table));
      SourceBefore(records, again, data, now, table, r, n);
      SourceFlips(r, n, data, now, Rows(Delayed(records, data), now, table));
    }
  }

  /** The records after the flags of the first evaluation are stored. */
  ghost function Again(alerts: map<string, Alert>, records: seq<Record>, data: Current, now: int, table: seq<Row>): seq<Record>
    requires Loaded(alerts, records) && DistinctIds(records)
  {
    ReloadedPending(alerts, records, data, now, table);
    Reload(Save(alerts, Evaluate(records, data, now, table)), records)
  }

  /** Evaluating the same report on the same rows again, after the flags are stored, sends nothing, provided
      that the second query starts where the first did or no row leans on one that it leaves out. */
  lemma SecondEvaluationIsSilent(alerts: map<string, Alert>, records: seq<Record>, data: Current, now: int, table: seq<Row>)
    requires Loaded(alerts, records) && DistinctIds(records) && InOrder(table)
    requires Undisturbed(Delayed(records, data), Delayed(Again(alerts, records, data, now, table), data), now, table)
    ensures Evaluate(Again(alerts, records, data, now, table), data, now, table) == []
  {
    hide Evaluate, Save, Undisturbed;
    ReloadedPending(alerts, records, data, now, table);
    var again := Again(alerts, records, data, now, table);
    var notices := Evaluate(again, data, now, table);
    if notices != [] {
      NothingAgain(records, again, data, now, table, notices[0]);
    }
  }

  // ----- a reading left standing

  const BUSY: Row := Row(-240_000, Some(Encoded(Some(90.0), None, None, Some(100.0), Some(0.0), map[], map[], None, None)))

  /** A minute without traffic: zero rates are not encoded. */
  function Idle(created: int): Row {
    Row(created, Some(Encoded(Some(90.0), None, None, None, None, map[], map[], None, None)))
  }

  const IDLE_ROWS: seq<Row> := [Idle(-160_000), Idle(-100_000), Idle(-40_000)]
  const ALL_ROWS: seq<Row> := [BUSY] + IDLE_ROWS
  const CPU_HIGH: Current := Current(90.0, 0.0, 0.0, 0.0, map[], 0.0, 0.0, 0.0, 0.0, 0.0, 0)
  const CPU_ALERT: Record := Record("cpu", Alert(CPU, 80.0, 3, false))
  const NET_ALERT: Record := Record("net", Alert(Bandwidth, 50.0, 2, true))

  function Reads(cpu: real, sent: real): Stats {
    NO_STATS.(cpu := cpu, netSent := sent)
  }

  lemma IdleReads(rows: seq<Row>, n: nat, sent: real)
    requires 0 < n <= |rows| && rows[n - 1] == Idle(rows[n - 1].created)
    requires StatsAfter(rows, n - 1) == Reads(StatsAfter(rows, n - 1).cpu, sent)
    ensures StatsAfter(rows, n) == Reads(90.0, sent)
  {
  }

  lemma FirstReads()
    ensures StatsAfter(ALL_ROWS, 3) == Reads(90.0, 100.0) && StatsAfter(ALL_ROWS, 2) == Reads(90.0, 100.0)
    ensures StatsAfter(ALL_ROWS, 4) == Reads(90.0, 100.0)
  {
    assert StatsAfter(ALL_ROWS, 0) == NO_STATS;
    assert StatsAfter(ALL_ROWS, 1) == Reads(90.0, 100.0);
    IdleReads(ALL_ROWS, 2, 100.0);
    IdleReads(ALL_ROWS, 3, 100.0);
    IdleReads(ALL_ROWS, 4, 100.0);
  }

  lemma SecondReads()
    ensures StatsAfter(IDLE_ROWS, 2) == Reads(90.0, 0.0) && StatsAfter(IDLE_ROWS, 3) == Reads(90.0, 0.0)
  {
    assert StatsAfter(IDLE_ROWS, 0) == NO_STATS;
    IdleReads(IDLE_ROWS, 1, 0.0);
    IdleReads(IDLE_ROWS, 2, 0.0);
    IdleReads(IDLE_ROWS, 3, 0.0);
  }

  /** The first query reaches the busy minute: its rate is averaged over the idle ones as well. */
  lemma FirstWindow()
    ensures Verdict(TallyOf(NET_ALERT, CPU_HIGH, 0, ALL_ROWS)) == []
    ensures Verdict(TallyOf(CPU_ALERT, CPU_HIGH, 0, ALL_ROWS)) == [Notice("cpu", true, 90.0)]
  {
    hide StatsAfter;
    FirstReads();
    var a := Data(NET_ALERT, CPU_HIGH, 0);
    assert Tally(a, ALL_ROWS, 1, map[]) == a.(val := 0.0);
    assert Tally(a, ALL_ROWS, 2, map[]) == a.(val := 0.0);
    assert Tally(a, ALL_ROWS, 3, map[]) == a.(val := 100.0, count := 1);
    assert Tally(a, ALL_ROWS, 4, map[]) == a.(val := 200.0, count := 2);
    var b := Data(CPU_ALERT, CPU_HIGH, 0);
    assert Tally(b, ALL_ROWS, 1, map[]) == b.(val := 0.0);
    assert Tally(b, ALL_ROWS, 2, map[]) == b.(val := 90.0, count := 1);
    assert Tally(b, ALL_ROWS, 3, map[]) == b.(val := 180.0, count := 2);
    assert Tally(b, ALL_ROWS, 4, map[]) == b.(val := 270.0, count := 3);
  }

  /** The second does not. */
  lemma SecondWindow()
    ensures Verdict(TallyOf(NET_ALERT, CPU_HIGH, 0, IDLE_ROWS)) == [Notice("net", false, 0.0)]
  {
    hide StatsAfter;
    SecondReads();
    var a := Data(NET_ALERT, CPU_HIGH, 0);
    assert Tally(a, IDLE_ROWS, 1, map[]) == a.(val := 0.0);
    assert Tally(a, IDLE_ROWS, 2, map[]) == a.(val := 0.0, count := 1);
    assert Tally(a, IDLE_ROWS, 3, map[]) == a.(val := 0.0, count := 2);
  }

  lemma FirstQuery()
    ensures Delayed([CPU_ALERT, NET_ALERT], CPU_HIGH) == [CPU_ALERT, NET_ALERT]
    ensures Rows([CPU_ALERT, NET_ALERT], 0, ALL_ROWS) == ALL_ROWS && Decodable(ALL_ROWS)
  {
    assert [CPU_ALERT, NET_ALERT][..1] == [CPU_ALERT] && [CPU_ALERT][..0] == [];
    assert Delayed([CPU_ALERT], CPU_HIGH) == [CPU_ALERT] by { assert Delayed([], CPU_HIGH) == []; }
    assert Oldest([CPU_ALERT], 0) == -180_000 by { assert Oldest([], 0) == 0; }
    assert Oldest([CPU_ALERT, NET_ALERT], 0) == -180_000;
    KeepsAll(ALL_ROWS, -270_000);
  }

  lemma {:induction false} KeepsAll(rows: seq<Row>, after: int)
    requires forall i :: 0 <= i < |rows| ==> rows[i].created > after
    ensures Select(rows, after) == rows
  {
    if rows != [] { KeepsAll(rows[..|rows| - 1], after); }
  }

  function AfterFirst(): Record {
    CPU_ALERT.(alert := CPU_ALERT.alert.(triggered := true))
  }

  lemma SecondGate()
    ensures Delayed([AfterFirst(), NET_ALERT], CPU_HIGH) == [NET_ALERT]
  {
    var again := [AfterFirst(), NET_ALERT];
    assert again[..1] == [AfterFirst()] && [AfterFirst()][..0] == [];
    assert Delayed([AfterFirst()], CPU_HIGH) == [] by { assert Delayed([], CPU_HIGH) == []; }
  }

  lemma SecondQuery()
    ensures Rows([NET_ALERT], 0, ALL_ROWS) == IDLE_ROWS && Decodable(IDLE_ROWS)
  {
    assert [NET_ALERT][..0] == [];
    assert Oldest([NET_ALERT], 0) == -120_000 by { assert Oldest([], 0) == 0; }
    KeepsAll(IDLE_ROWS, -210_000);
    NothingLater([BUSY], -210_000);
    SelectSplit([BUSY], IDLE_ROWS, -210_000);
  }

  lemma FirstSends()
    ensures Notice("cpu", true, 90.0) in Evaluate([CPU_ALERT, NET_ALERT], CPU_HIGH, 0, ALL_ROWS)
    ensures !Sent(Evaluate([CPU_ALERT, NET_ALERT], CPU_HIGH, 0, ALL_ROWS), "net")
  {
    hide Evaluate, Verdict, Tally, Rows, Delayed;
    FirstWindow();
    FirstQuery();
    var records := [CPU_ALERT, NET_ALERT];
    var first := Notice("cpu", true, 90.0);
    EveryNoticeFlips(records, CPU_HIGH, 0, ALL_ROWS, first);
    assert CPU_ALERT in records && Source(CPU_ALERT, first, CPU_HIGH, 0, ALL_ROWS);
    forall n | n in Evaluate(records, CPU_HIGH, 0, ALL_ROWS) ensures n.alert != "net" {
      EveryNoticeFlips(records, CPU_HIGH, 0, ALL_ROWS, n);
    }
  }

  lemma SecondSends()
    ensures Notice("net", false, 0.0) in Evaluate([AfterFirst(), NET_ALERT], CPU_HIGH, 0, ALL_ROWS)
  {
    hide Evaluate, Verdict, Tally, Rows, Delayed;
    SecondWindow();
    SecondGate();
    SecondQuery();
    var again := [AfterFirst(), NET_ALERT];
    var second := Notice("net", false, 0.0);
    EveryNoticeFlips(again, CPU_HIGH, 0, ALL_ROWS, second);
    assert NET_ALERT in again && Source(NET_ALERT, second, CPU_HIGH, 0, IDLE_ROWS);
  }

  /** Without that provision the second evaluation can send: here the CPU alert goes off first and so
      shortens the second query, and the bandwidth alert is resolved only then. */
  lemma LeftoverReadingSendsAgain()
    ensures var records := [CPU_ALERT, NET_ALERT];
            var sent := Evaluate(records, CPU_HIGH, 0, ALL_ROWS);
            var again := [AfterFirst(), NET_ALERT];
            InOrder(ALL_ROWS) && DistinctIds(records)
            && Notice("cpu", true, 90.0) in sent && !Sent(sent, "net")
            && Notice("net", false, 0.0) in Evaluate(again, CPU_HIGH, 0, ALL_ROWS)
  {
    hide Evaluate;
    FirstSends();
    SecondSends();
  }

  lemma {:induction false} SelectSplit(first: seq<Row>, second: seq<Row>, after: int)
    ensures Select(first + second, after) == Select(first, after) + Select(second, after)
  {
    if second == [] {
      assert first + second == first;
    } else {
      var n := |second| - 1;
      assert (first + second)[..|first + second| - 1] == first + second[..n];
      SelectSplit(first, second[..n], after);
    }
  }
}
