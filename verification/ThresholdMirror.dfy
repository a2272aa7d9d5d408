/** The battery alert, which triggers below its threshold, is an ordinary alert on negated values
    (internal/alerts/alerts_system.go 79-93 and 278-296). */
module ThresholdMirror {
  import opened Options
  import opened ThresholdAlerts
  import opened ThresholdProperties

  /** The ordinary alert: same record, but on the first load average, with the threshold negated. */
  function MirrorRecord(r: Record): Record {
    r.(alert := r.alert.(name := LoadAvg1, threshold := -r.alert.threshold))
  }

  function MirrorEncoded(e: Encoded): Encoded {
    e.(load := match e.battery case Some(b) => Some((-(b as real), 0.0, 0.0)) case None => None)
  }

  /** A row whose first load average is the negated battery level. */
  function MirrorRow(row: Row): Row {
    row.(stats := match row.stats case Some(e) => Some(MirrorEncoded(e)) case None => None)
  }

  function MirrorRows(rows: seq<Row>): seq<Row> {
    seq(|rows|, i requires 0 <= i < |rows| => MirrorRow(rows[i]))
  }

  function MirrorData(data: Current): Current {
    data.(load1 := -(data.battery as real))
  }

  function MirrorNotices(notices: seq<Notice>): seq<Notice> {
    seq(|notices|, i requires 0 <= i < |notices| => notices[i].(val := -notices[i].val))
  }

  /** What one record sends. */
  ghost function EvaluateOne(r: Record, data: Current, now: int, table: seq<Row>): seq<Notice> {
    if !Passes(r.alert, data) then []
    else if Minutes(r.alert) == 1 then ImmediateOf(r, data)
    else
      var rows := Select(table, WindowStart(r.alert, now) - QUERY_BUFFER);
      if rows == [] || !Decodable(rows) || WindowStart(r.alert, now) <= rows[0].created then []
      else Verdict(TallyOf(r, data, now, rows))
  }

  lemma SingleGate(r: Record, data: Current, now: int)
    ensures Immediate([r], data) == ImmediateOf(r, data)
    ensures Delayed([r], data) == if Passes(r.alert, data) && Minutes(r.alert) > 1 then [r] else []
    ensures Minutes(r.alert) > 1 ==> Oldest([r], now) == WindowStart(r.alert, now)
  {
    assert [r][..0] == [];
    assert Immediate([], data) == [] && Delayed([], data) == [] && Oldest([], now) == now;
  }

  lemma SingleRecord(r: Record, data: Current, now: int, table: seq<Row>)
    ensures Evaluate([r], data, now, table) == EvaluateOne(r, data, now, table)
  {
    hide Verdict, Tally, Passes, Immediate, Delayed, Oldest, Select, Averaged;
    SingleGate(r, data, now);
    if Passes(r.alert, data) && Minutes(r.alert) > 1 {
      SingleAverage(r, data, now, Rows([r], now, table));
    } else {
      NoAverage(data, now, Rows([], now, table));
    }
  }

  lemma NoAverage(data: Current, now: int, rows: seq<Row>)
    ensures Averaged([], data, now, rows) == []
  {
  }

  lemma SingleAverage(r: Record, data: Current, now: int, rows: seq<Row>)
    requires Minutes(r.alert) > 1
    ensures Averaged([r], data, now, rows)
         == if rows == [] || !Decodable(rows) || WindowStart(r.alert, now) <= rows[0].created then []
            else Verdict(TallyOf(r, data, now, rows))
  {
    hide Verdict, Tally;
    if rows != [] && Decodable(rows) {
      if WindowStart(r.alert, now) > rows[0].created {
        SingleVerdict(r, data, now, rows);
      } else {
        assert [r][..0] == [];
        assert Covered([], now, rows[0].created) == [];
        assert Covered([r], now, rows[0].created) == [];
      }
    }
  }

  lemma SingleVerdict(r: Record, data: Current, now: int, rows: seq<Row>)
    requires rows != [] && Decodable(rows) && Minutes(r.alert) > 1 && WindowStart(r.alert, now) > rows[0].created
    ensures Averaged([r], data, now, rows) == Verdict(TallyOf(r, data, now, rows))
  {
    hide Verdict, Tally;
    assert [r][..0] == [];
    assert Covered([], now, rows[0].created) == [];
    assert Covered([r], now, rows[0].created) == [r];
    var datas := Tallied([r], data, now, rows);
    assert datas == [TallyOf(r, data, now, rows)];
    assert datas[..0] == [];
    assert Verdicts([]) == [];
  }

  lemma {:induction false} StatsMirror(rows: seq<Row>, n: nat)
    requires n <= |rows|
    ensures StatsAfter(MirrorRows(rows), n).load.0 == -(StatsAfter(rows, n).battery as real)
  {
    if n > 0 { StatsMirror(rows, n - 1); }
  }

  lemma {:induction false} TallyMirror(a: AlertData, b: AlertData, rows: seq<Row>, n: nat, extraFs: map<string, real>)
    requires n <= |rows| && a.name.Battery? && b.name.LoadAvg1? && b.time == a.time && b.count == a.count
    ensures Tally(b, MirrorRows(rows), n, extraFs).val == -Tally(a, rows, n, extraFs).val
    ensures Tally(b, MirrorRows(rows), n, extraFs).count == Tally(a, rows, n, extraFs).count
  {
    if n > 0 {
      TallyMirror(a, b, rows, n - 1, extraFs);
      TallyKeeps(a, rows, n - 1, extraFs);
      TallyKeeps(b, MirrorRows(rows), n - 1, extraFs);
      StatsMirror(rows, n);
    }
  }

  lemma NegatedQuotient(x: real, n: nat)
    requires n > 0
    ensures (-x) / n as real == -(x / n as real)
  {
  }

  lemma VerdictMirror(a: AlertData, b: AlertData)
    requires a.name.Battery? && b.name.LoadAvg1? && a.min >= 2
    requires b.id == a.id && b.min == a.min && b.count == a.count && b.triggered == a.triggered
    requires b.threshold == -a.threshold && b.val == -a.val
    ensures Verdict(b) == MirrorNotices(Verdict(a))
  {
    if a.count > 0 {
      NegatedQuotient(a.val, a.count);
      assert Average(b) == -Average(a);
    }
  }

  lemma {:induction false} SelectMirror(table: seq<Row>, after: int)
    ensures Select(MirrorRows(table), after) == MirrorRows(Select(table, after))
  {
    if table != [] {
      var n := |table| - 1;
      SelectMirror(table[..n], after);
      assert MirrorRows(table)[..n] == MirrorRows(table[..n]);
    }
  }

  lemma DecodableMirror(rows: seq<Row>)
    ensures Decodable(MirrorRows(rows)) == Decodable(rows)
  {
    if Decodable(MirrorRows(rows)) {
      forall i | 0 <= i < |rows| ensures rows[i].stats.Some? {
        assert MirrorRows(rows)[i].stats.Some?;
      }
    }
  }

  lemma TallyOfMirror(r: Record, data: Current, now: int, rows: seq<Row>)
    requires r.alert.name.Battery? && Minutes(r.alert) >= 2
    ensures Verdict(TallyOf(MirrorRecord(r), MirrorData(data), now, MirrorRows(rows)))
         == MirrorNotices(Verdict(TallyOf(r, data, now, rows)))
  {
    hide Verdict;
    TallyMirror(Data(r, data, now), Data(MirrorRecord(r), MirrorData(data), now), rows, |rows|, data.extraFs);
    VerdictMirror(TallyOf(r, data, now, rows), TallyOf(MirrorRecord(r), MirrorData(data), now, MirrorRows(rows)));
  }

  /** A battery alert sends what an ordinary alert sends on the negated threshold and values, with its
      value negated: gate, window, count and verdict are the same. */
  lemma LowAlertMirrorsOrdinary(r: Record, data: Current, now: int, table: seq<Row>)
    requires r.alert.name.Battery? && data.battery != 0
    ensures Evaluate([MirrorRecord(r)], MirrorData(data), now, MirrorRows(table))
         == MirrorNotices(Evaluate([r], data, now, table))
  {
    hide Verdict, Tally, Evaluate;
    SingleRecord(r, data, now, table);
    SingleRecord(MirrorRecord(r), MirrorData(data), now, MirrorRows(table));
    var rows := Select(table, WindowStart(r.alert, now) - QUERY_BUFFER);
    SelectMirror(table, WindowStart(r.alert, now) - QUERY_BUFFER);
    DecodableMirror(rows);
    if Minutes(r.alert) > 1 {
      TallyOfMirror(r, data, now, rows);
    }
  }
}
