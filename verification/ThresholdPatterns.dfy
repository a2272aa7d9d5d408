/** When evaluating a report again is silent whatever the values are (internal/alerts/alerts_system.go): it depends
    on which alerts there are, when the rows were created and which fields they have. */
module ThresholdPatterns {
  import opened Options
  import opened ThresholdAlerts
  import opened ThresholdProperties
  import opened ThresholdLeaning
  import opened ThresholdWitness
  import opened ThresholdRerun

  // ----- the condition

  /** The rows queried when the record's window is the longest. */
  function QueryFor(r: Record, now: int, table: seq<Row>): seq<Row> {
    Select(table, WindowStart(r.alert, now) - QUERY_BUFFER)
  }

  /** The first query starts for `p`, which can be sent; the second for `q`; and `x`, which has enough minutes in
      either, leans on a row that the second leaves out. */
  ghost predicate Leftover(p: Record, q: Record, x: Record, now: int, table: seq<Row>) {
    var first, second := WindowStart(p.alert, now), WindowStart(q.alert, now);
    && Minutes(x.alert) > 1 && first < second <= WindowStart(x.alert, now)
    && Judged(p, now, QueryFor(p, now, table)) && Judged(x, now, QueryFor(q, now, table))
    && 0 <= Dropped(table, first, second) && !Independent(x, now, table, first, second)
  }

  ghost predicate CanSendAgain(records: seq<Record>, now: int, table: seq<Row>) {
    exists p, q, x :: p in records && q in records && x in records && Leftover(p, q, x, now, table)
  }

  /** The same alerts but for thresholds and stored flags. */
  predicate SameKinds(records: seq<Record>, others: seq<Record>) {
    |records| == |others| && forall i :: 0 <= i < |records| ==> SameKind(records[i], others[i])
  }

  predicate SameKind(r: Record, s: Record) {
    r.id == s.id && r.alert.name == s.alert.name && r.alert.minutes == s.alert.minutes
  }

  ghost predicate SilentAgain(alerts: map<string, Alert>, records: seq<Record>, data: Current, now: int, table: seq<Row>) {
    Loaded(alerts, records) && DistinctIds(records) && Evaluate(Again(alerts, records, data, now, table), data, now, table) == []
  }

  lemma KindsAreDistinct(records: seq<Record>, others: seq<Record>)
    requires SameKinds(records, others) && DistinctIds(records)
    ensures DistinctIds(others)
  {
    forall i, j | 0 <= i < j < |others| ensures others[i].id != others[j].id {
      assert SameKind(records[i], others[i]) && SameKind(records[j], others[j]);
    }
  }

  /** Whatever is reported, for all thresholds, stored flags and values of the fields present. */
  ghost predicate AlwaysSilent(records: seq<Record>, now: int, table: seq<Row>) {
    forall alerts, others, data, rows: seq<Row> ::
      SameKinds(records, others) && Loaded(alerts, others) && SamePattern(table, rows) ==>
        SilentAgain(alerts, others, data, now, rows)
  }

  // ----- it is sufficient

  /** A delayed alert stays delayed if it was not sent. */
  lemma StaysDelayed(records: seq<Record>, again: seq<Record>, data: Current, now: int, table: seq<Row>)
    requires Pending(records, data, now, table, again)
    ensures forall r :: r in Delayed(again, data) ==> r in records && r in Delayed(records, data)
    ensures forall r :: r in Delayed(records, data) && r !in Delayed(again, data) ==> Sent(Evaluate(records, data, now, table), r.id)
  {
    hide Evaluate, Passes, Minutes, Sent;
  }

  lemma OldestRecord(records: seq<Record>, now: int) returns (r: Record)
    requires Oldest(records, now) != now
    ensures r in records && WindowStart(r.alert, now) == Oldest(records, now)
  {
    OldestIsMin(records, now);
    r :| r in records && Oldest(records, now) == WindowStart(r.alert, now);
  }

  lemma LongestIsGone(delayed: seq<Record>, delayed2: seq<Record>, now: int) returns (p: Record, q: Record)
    requires Oldest(delayed, now) != Oldest(delayed2, now) < now
    requires forall r :: r in delayed2 ==> r in delayed
    ensures p in delayed && WindowStart(p.alert, now) == Oldest(delayed, now) && p !in delayed2
    ensures q in delayed2 && WindowStart(q.alert, now) == Oldest(delayed2, now)
  {
    hide Oldest, WindowStart;
    OldestIsMin(delayed, now);
    OldestIsMin(delayed2, now);
    q := OldestRecord(delayed2, now);
    p := OldestRecord(delayed, now);
  }

  /** If the bound moved, the longest window's alert was sent. */
  lemma LongestWasSent(records: seq<Record>, again: seq<Record>, data: Current, now: int, table: seq<Row>) returns (p: Record, q: Record)
    requires Pending(records, data, now, table, again) && DistinctIds(records)
    requires Oldest(Delayed(records, data), now) != Oldest(Delayed(again, data), now) < now
    ensures p in records && q in records
    ensures WindowStart(p.alert, now) == Oldest(Delayed(records, data), now) && Judged(p, now, QueryFor(p, now, table))
    ensures WindowStart(q.alert, now) == Oldest(Delayed(again, data), now)
  {
    hide Evaluate, Passes, Oldest, Select, WindowStart, Judged, Pending, Sent, DistinctIds, Minutes;
    StaysDelayed(records, again, data, now, table);
    p, q := LongestIsGone(Delayed(records, data), Delayed(again, data), now);
    SentMeansJudged(records, data, now, table, p);
  }

  lemma IndependentWithoutLeftover(records: seq<Record>, p: Record, q: Record, x: Record, now: int, table: seq<Row>)
    requires p in records && q in records && x in records && !CanSendAgain(records, now, table)
    requires Minutes(x.alert) > 1
    requires WindowStart(p.alert, now) < WindowStart(q.alert, now) <= WindowStart(x.alert, now)
    requires Judged(p, now, QueryFor(p, now, table)) && Judged(x, now, QueryFor(q, now, table))
    requires 0 <= Dropped(table, WindowStart(p.alert, now), WindowStart(q.alert, now))
    ensures Independent(x, now, table, WindowStart(p.alert, now), WindowStart(q.alert, now))
  {
    hide Judged, Independent, Dropped, WindowStart;
    assert !Leftover(p, q, x, now, table);
  }

  lemma StillIndependent(records: seq<Record>, again: seq<Record>, data: Current, now: int, table: seq<Row>, x: Record)
    requires Pending(records, data, now, table, again) && DistinctIds(records) && !CanSendAgain(records, now, table)
    requires Oldest(Delayed(records, data), now) < Oldest(Delayed(again, data), now)
    requires 0 <= Dropped(table, Oldest(Delayed(records, data), now), Oldest(Delayed(again, data), now))
    requires x in Delayed(again, data) && Judged(x, now, Rows(Delayed(again, data), now, table))
    ensures Independent(x, now, table, Oldest(Delayed(records, data), now), Oldest(Delayed(again, data), now))
  {
    hide Evaluate, Passes, Oldest, Select, Judged, Independent, CanSendAgain, Pending, DistinctIds, Dropped;
    StaysDelayed(records, again, data, now, table);
    OldestIsMin(Delayed(again, data), now);
    var p, q := LongestWasSent(records, again, data, now, table);
    IndependentWithoutLeftover(records, p, q, x, now, table);
  }

  lemma NothingLeftover(records: seq<Record>, again: seq<Record>, data: Current, now: int, table: seq<Row>)
    requires Pending(records, data, now, table, again) && DistinctIds(records) && InOrder(table)
    requires !CanSendAgain(records, now, table)
    ensures Undisturbed(Delayed(records, data), Delayed(again, data), now, table)
  {
    hide Evaluate, Passes, Oldest, Select, Judged, Independent, CanSendAgain, Pending, DistinctIds, InOrder, Delayed;
    var oldest, newest := Oldest(Delayed(records, data), now), Oldest(Delayed(again, data), now);
    AllSame(records, again, data, now, table);
    if oldest != newest {
      DroppedAreBefore(table, oldest, newest, newest);
      forall x | x in Delayed(again, data) && Judged(x, now, Rows(Delayed(again, data), now, table))
        ensures Independent(x, now, table, oldest, newest)
      {
        StillIndependent(records, again, data, now, table, x);
      }
    }
  }

  /** For given values: without a leftover reading, the second evaluation is silent. */
  lemma SilentWithoutLeftover(alerts: map<string, Alert>, records: seq<Record>, data: Current, now: int, table: seq<Row>)
    requires Loaded(alerts, records) && DistinctIds(records) && InOrder(table) && !CanSendAgain(records, now, table)
    ensures SilentAgain(alerts, records, data, now, table)
  {
    hide Evaluate, Save, Undisturbed, CanSendAgain, Pending;
    ReloadedPending(alerts, records, data, now, table);
    NothingLeftover(records, Again(alerts, records, data, now, table), data, now, table);
    SecondEvaluationIsSilent(alerts, records, data, now, table);
  }

  // ----- it depends on the pattern only

  lemma {:induction false} PatternSelect(table: seq<Row>, others: seq<Row>, after: int)
    requires SamePattern(table, others)
    ensures SamePattern(Select(table, after), Select(others, after))
  {
    if table != [] {
      var n := |table| - 1;
      assert SameRow(table[n], others[n]);
      PatternSelect(table[..n], others[..n], after);
    }
  }

  lemma PatternOrder(table: seq<Row>, others: seq<Row>)
    requires SamePattern(table, others) && InOrder(table)
    ensures InOrder(others)
  {
    forall i, j | 0 <= i < j < |others| ensures others[i].created <= others[j].created {
      assert SameRow(table[i], others[i]) && SameRow(table[j], others[j]);
    }
  }

  lemma PatternBack(rows: seq<Row>, others: seq<Row>)
    requires SamePattern(rows, others)
    ensures SamePattern(others, rows)
  {
    forall i | 0 <= i < |rows| ensures SameRow(others[i], rows[i]) { assert SameRow(rows[i], others[i]); }
  }

  lemma PatternJudged(r: Record, s: Record, now: int, rows: seq<Row>, others: seq<Row>)
    requires SameKind(r, s) && SamePattern(rows, others)
    ensures Judged(r, now, rows) ==> Judged(s, now, others)
  {
    hide WindowCount;
    PatternCount(r.alert.name, WindowStart(r.alert, now), rows, others, |rows|);
    forall i | 0 <= i < |rows| ensures SameRow(rows[i], others[i]) {
    }
  }

  lemma PatternLeftover(p: Record, q: Record, x: Record, p2: Record, q2: Record, x2: Record, now: int, table: seq<Row>, others: seq<Row>)
    requires SameKind(p, p2) && SameKind(q, q2) && SameKind(x, x2) && SamePattern(table, others)
    ensures Leftover(p, q, x, now, table) ==> Leftover(p2, q2, x2, now, others)
  {
    hide Judged, StandsAlone, SamePattern, Select;
    var first, second := WindowStart(p.alert, now), WindowStart(q.alert, now);
    PatternSelect(table, others, first - QUERY_BUFFER);
    PatternSelect(table, others, second - QUERY_BUFFER);
    PatternJudged(p, p2, now, QueryFor(p, now, table), QueryFor(p, now, others));
    PatternJudged(x, x2, now, QueryFor(q, now, table), QueryFor(q, now, others));
    PatternLength(QueryFor(p, now, table), QueryFor(p, now, others));
    PatternLength(QueryFor(q, now, table), QueryFor(q, now, others));
    PatternBack(QueryFor(p, now, table), QueryFor(p, now, others));
    if Leftover(p, q, x, now, table) && Independent(x2, now, others, first, second) {
      PatternStandsAlone(x.alert.name, WindowStart(x.alert, now), QueryFor(p, now, others), QueryFor(p, now, table), Dropped(table, first, second));
    }
  }

  lemma PatternLength(rows: seq<Row>, others: seq<Row>)
    requires SamePattern(rows, others)
    ensures |rows| == |others|
  {
  }

  lemma PatternCanSendAgain(records: seq<Record>, others: seq<Record>, now: int, table: seq<Row>, rows: seq<Row>)
    requires SameKinds(records, others) && SamePattern(table, rows) && CanSendAgain(others, now, rows)
    ensures CanSendAgain(records, now, table)
  {
    hide Leftover, SamePattern;
    var p, q, x :| p in others && q in others && x in others && Leftover(p, q, x, now, rows);
    var i :| 0 <= i < |others| && others[i] == p;
    var j :| 0 <= j < |others| && others[j] == q;
    var k :| 0 <= k < |others| && others[k] == x;
    PatternBack(table, rows);
    PatternLeftover(p, q, x, records[i], records[j], records[k], now, rows, table);
  }

  // ----- it is necessary

  /** All live values are 1. */
  const STEADY: Current := Current(1.0, 1.0, 1.0, 1.0, map[], 1.0, 1.0, 1.0, 1.0, 1.0, 1)

  function With(r: Record, threshold: real, triggered: bool): Record {
    r.(alert := r.alert.(threshold := threshold, triggered := triggered))
  }

  /** Sent whatever the average, if there are enough minutes. */
  function Ready(r: Record): Record {
    With(r, -1.0, IsLowAlert(r.alert.name))
  }

  /** Sent for an average of 0 and not for a high one. */
  function PoisedRecord(r: Record): Record {
    if IsLowAlert(r.alert.name) then With(r, 2.0, false) else With(r, 1.0, true)
  }

  /** Not sent for an average of 0. */
  function Calm(r: Record): Record {
    With(r, 0.5, IsLowAlert(r.alert.name))
  }

  /** Does not pass the gate. */
  function Blocked(r: Record): Record {
    With(r, if IsLowAlert(r.alert.name) then 0.0 else 2.0, false)
  }

  function Cast(r: Record, p: Record, q: Record, x: Record, calm: bool): Record {
    if r.id == p.id then Ready(r)
    else if r.id == x.id then PoisedRecord(r)
    else if r.id == q.id then if calm then Calm(r) else PoisedRecord(r)
    else Blocked(r)
  }

  lemma GatesAtSteady(r: Record)
    ensures Passes(Ready(r).alert, STEADY) && Passes(PoisedRecord(r).alert, STEADY) && !Passes(Blocked(r).alert, STEADY)
    ensures !r.alert.name.Other? ==> Passes(Calm(r).alert, STEADY)
  {
  }

  function Reset(a: AlertData, threshold: real, triggered: bool): AlertData {
    a.(threshold := threshold, triggered := triggered)
  }

  lemma AddIgnoresThreshold(a: AlertData, stats: Stats, extraFs: map<string, real>, threshold: real, triggered: bool)
    ensures Add(Reset(a, threshold, triggered), stats, extraFs) == Reset(Add(a, stats, extraFs), threshold, triggered)
  {
    hide MaxFrom, AddAll;
    match a.name
    case GPU => if stats.gpu == map[] { }
    case Disk =>
    case Temperature =>
    case _ =>
  }

  /** The threshold and flag do not influence the tally. */
  lemma {:induction false} TallyIgnoresThreshold(a: AlertData, rows: seq<Row>, n: nat, extraFs: map<string, real>, threshold: real, triggered: bool)
    requires n <= |rows|
    ensures Tally(Reset(a, threshold, triggered), rows, n, extraFs) == Reset(Tally(a, rows, n, extraFs), threshold, triggered)
  {
    hide Add;
    if n > 0 {
      TallyIgnoresThreshold(a, rows, n - 1, extraFs, threshold, triggered);
      AddIgnoresThreshold(Tally(a, rows, n - 1, extraFs), StatsAfter(rows, n), extraFs, threshold, triggered);
    }
  }

  // What the witness rows add up to.

  lemma {:induction false} SumIsZeroOrHigh(name: Name, time: int, rows: seq<Row>, n: nat)
    requires n <= |rows| && AllPlain(name, rows, n) && Scalar(name)
    ensures WindowSum(name, time, rows, n) == 0.0 || WindowSum(name, time, rows, n) >= HIGH as real
  {
    if n > 0 {
      SumIsZeroOrHigh(name, time, rows, n - 1);
      assert PlainFor(name, StatsAfter(rows, n));
      PlainFields(name, StatsAfter(rows, n));
    }
  }

  lemma {:induction false} PartIsZeroOrHigh(name: Name, time: int, rows: seq<Row>, n: nat, key: string)
    requires n <= |rows| && AllPlain(name, rows, n) && !Scalar(name)
    ensures PartSum(name, time, rows, n, map[], key) == 0.0 || PartSum(name, time, rows, n, map[], key) >= HIGH as real
  {
    if n > 0 {
      PartIsZeroOrHigh(name, time, rows, n - 1, key);
      assert PlainFor(name, StatsAfter(rows, n));
      PlainFields(name, StatsAfter(rows, n));
    }
  }

  lemma NumeratorIsZeroOrHigh(a: AlertData, rows: seq<Row>)
    requires IsFresh(a) && AllPlain(a.name, rows, |rows|)
    ensures Numerator(Tally(a, rows, |rows|, map[])) == 0.0 || Numerator(Tally(a, rows, |rows|, map[])) >= HIGH as real
  {
    TallyKeeps(a, rows, |rows|, map[]);
    if Scalar(a.name) {
      TallySums(a, rows, |rows|, map[]);
      SumIsZeroOrHigh(a.name, a.time, rows, |rows|);
    } else {
      var sums := Tally(a, rows, |rows|, map[]).mapSums;
      forall key | key in sums ensures sums[key] == 0.0 || sums[key] >= HIGH as real {
        TallyParts(a, rows, |rows|, map[], key);
        PartIsZeroOrHigh(a.name, a.time, rows, |rows|, key);
      }
    }
  }

  lemma AverageIsNumerator(t: AlertData)
    requires t.min >= 2 && Enough(t) && Numerator(t) >= 0.0
    ensures Average(t) >= 0.0 && (Numerator(t) == 0.0 ==> Average(t) == 0.0)
  {
    DivideKeepsOrder(0.0, Numerator(t), t.count as real);
  }

  lemma ReadyGoesOff(r: Record, now: int, rows: seq<Row>)
    requires Minutes(r.alert) > 1 && Ready(r) == r && AllPlain(r.alert.name, rows, |rows|) && Judged(r, now, rows)
    ensures Verdict(TallyOf(r, STEADY, now, rows)) != []
  {
    hide Tally, WindowCount, Average;
    var t := TallyOf(r, STEADY, now, rows);
    TallyCounts(Data(r, STEADY, now), rows, |rows|, map[]);
    NumeratorIsZeroOrHigh(Data(r, STEADY, now), rows);
    AverageIsNumerator(t);
  }

  lemma PoisedOrCalm(r: Record, now: int, rows: seq<Row>) returns (calm: bool)
    requires Minutes(r.alert) > 1 && AllPlain(r.alert.name, rows, |rows|)
    ensures calm ==> !r.alert.name.Other?
    ensures Verdict(TallyOf(if calm then Calm(r) else PoisedRecord(r), STEADY, now, rows)) == []
  {
    hide Tally, Average;
    var poised := TallyOf(PoisedRecord(r), STEADY, now, rows);
    calm := Verdict(poised) != [];
    if calm {
      var a := Data(PoisedRecord(r), STEADY, now);
      NumeratorIsZeroOrHigh(a, rows);
      if Numerator(poised) != 0.0 { PoisedIsSilentWhenHigh(poised); }
      var b := Data(Calm(r), STEADY, now);
      TallyIgnoresThreshold(a, rows, |rows|, map[], b.threshold, b.triggered);
      AverageIsNumerator(TallyOf(Calm(r), STEADY, now, rows));
      OtherIsNotCounted(a, rows, |rows|);
    }
  }

  lemma {:induction false} OtherIsNotCounted(a: AlertData, rows: seq<Row>, n: nat)
    requires n <= |rows|
    ensures a.name.Other? ==> Tally(a, rows, n, map[]).count == a.count
  {
    if n > 0 {
      OtherIsNotCounted(a, rows, n - 1);
      TallyKeeps(a, rows, n - 1, map[]);
    }
  }

  // The table from which these rows are queried.

  function PaintedTable(table: seq<Row>, bound: int): (r: seq<Row>)
    ensures SamePattern(table, r)
  {
    seq(|table|, i requires 0 <= i < |table| => PaintedRow(table[i], if table[i].created <= bound then HIGH else 0))
  }

  lemma {:induction false} SelectPainted(table: seq<Row>, bound: int, after: int)
    ensures Select(PaintedTable(table, bound), after) == PaintedTable(Select(table, after), bound)
  {
    if table != [] {
      var n := |table| - 1;
      assert PaintedTable(table, bound)[..n] == PaintedTable(table[..n], bound);
      SelectPainted(table[..n], bound, after);
    }
  }

  lemma {:induction false} SelectIsAfter(table: seq<Row>, after: int)
    ensures forall row :: row in Select(table, after) ==> row.created > after
  {
    if table != [] { SelectIsAfter(table[..|table| - 1], after); }
  }

  lemma PaintedIsWitness(table: seq<Row>, after: int, later: int)
    requires InOrder(table) && after <= later
    ensures var k := |Select(table, after)| - |Select(table, later)|;
            && 0 <= k <= |Select(table, after)|
            && Select(PaintedTable(table, later), after) == Witness(Select(table, after), k)
            && Select(PaintedTable(table, later), later) == Witness(Select(table, after), k)[k..]
  {
    hide Select, PaintedRow, SamePattern, InOrder;
    var k := SelectDrops(table, after, later);
    var rows := Select(table, after);
    SelectPainted(table, later, after);
    SelectPainted(table, later, later);
    SelectIsAfter(table, later);
    forall i | 0 <= i < |rows| ensures rows[i].created <= later <==> i < k {
      if i >= k { assert rows[k..][i - k] in Select(table, later); }
    }
  }

  // The two evaluations.

  /** The alerts with thresholds and flags chosen so that `p` goes off first and `x` after it. */
  function CastAll(records: seq<Record>, p: Record, q: Record, x: Record, calm: bool): (r: seq<Record>)
    ensures SameKinds(records, r)
  {
    seq(|records|, i requires 0 <= i < |records| => Cast(records[i], p, q, x, calm))
  }

  ghost function Stored(records: seq<Record>): (m: map<string, Alert>)
    requires DistinctIds(records)
    ensures Loaded(m, records)
  {
    map r | r in records :: r.id := r.alert
  }

  lemma OldestIs(records: seq<Record>, now: int, r: Record)
    requires r in records && forall s :: s in records ==> WindowStart(r.alert, now) <= WindowStart(s.alert, now)
    ensures Oldest(records, now) == WindowStart(r.alert, now)
  {
    OldestIsMin(records, now);
  }

  lemma CastGate(r: Record, p: Record, q: Record, x: Record, calm: bool)
    requires calm ==> !r.alert.name.Other? || r.id != q.id
    ensures Passes(Cast(r, p, q, x, calm).alert, STEADY) <==> r.id == p.id || r.id == q.id || r.id == x.id
    ensures SameKind(r, Cast(r, p, q, x, calm))
  {
    hide Passes;
    GatesAtSteady(r);
  }

  lemma OwnRecord(records: seq<Record>, r: Record, s: Record)
    requires DistinctIds(records) && r in records && s in records && r.id == s.id
    ensures r == s
  {
  }

  /** Exactly the three are delayed. */
  lemma CastDelayed(records: seq<Record>, p: Record, q: Record, x: Record, calm: bool, r: Record)
    requires DistinctIds(records) && p in records && q in records && x in records && r in records
    requires Minutes(p.alert) > 1 && Minutes(q.alert) > 1 && Minutes(x.alert) > 1
    requires calm ==> !q.alert.name.Other?
    ensures Cast(r, p, q, x, calm) in CastAll(records, p, q, x, calm)
    ensures Cast(r, p, q, x, calm) in Delayed(CastAll(records, p, q, x, calm), STEADY) <==> r == p || r == q || r == x
  {
    hide Passes, Cast;
    var others := CastAll(records, p, q, x, calm);
    var i :| 0 <= i < |records| && records[i] == r;
    assert others[i] == Cast(r, p, q, x, calm);
    if r.id == p.id { OwnRecord(records, r, p); }
    if r.id == q.id { OwnRecord(records, r, q); }
    if r.id == x.id { OwnRecord(records, r, x); }
    CastGate(r, p, q, x, calm);
  }

  /** The two alerts and the values in play: `p` goes off first, `x` only after it. */
  datatype Play = Play(records: seq<Record>, p: Record, q: Record, x: Record, now: int, table: seq<Row>, calm: bool) {
    function Start(r: Record): int { WindowStart(r.alert, now) }
    function Bound(): int { Start(q) }
    function All(): seq<Record> { CastAll(records, p, q, x, calm) }
    function Of(r: Record): Record { Cast(r, p, q, x, calm) }
    function Values(): seq<Row> { PaintedTable(table, Bound() - QUERY_BUFFER) }
    function First(): seq<Row> { Select(Values(), Start(p) - QUERY_BUFFER) }
    function Second(): seq<Row> { Select(Values(), Bound() - QUERY_BUFFER) }

    ghost predicate Valid() {
      && DistinctIds(records) && InOrder(table) && p in records && q in records && x in records && Leftover(p, q, x, now, table)
      && (calm ==> !q.alert.name.Other?)
      && (q != x ==> Verdict(TallyOf(Of(q), STEADY, now, First())) == [])
    }
  }

  lemma CastStarts(play: Play)
    requires play.Valid()
    ensures Minutes(play.p.alert) > 1 && Minutes(play.q.alert) > 1 && Minutes(play.x.alert) > 1
    ensures play.Start(play.Of(play.p)) == play.Start(play.p) && play.Start(play.Of(play.q)) == play.Bound()
    ensures play.Start(play.Of(play.x)) == play.Start(play.x)
    ensures play.p != play.q && play.p != play.x
    ensures play.Start(play.p) < play.Bound() <= play.Start(play.x)
  {
    hide Judged, Independent, Select;
  }

  lemma CastOf(play: Play, d: Record) returns (r: Record)
    requires d in play.All()
    ensures r in play.records && d == play.Of(r)
  {
    var i :| 0 <= i < |play.All()| && play.All()[i] == d;
    r := play.records[i];
  }

  lemma ThreeDelayed(play: Play)
    requires play.Valid()
    ensures var delayed := Delayed(play.All(), STEADY);
            && play.Of(play.p) in delayed && play.Of(play.q) in delayed && play.Of(play.x) in delayed
            && forall d :: d in delayed ==> d == play.Of(play.p) || d == play.Of(play.q) || d == play.Of(play.x)
  {
    CastStarts(play);
    hide Passes, Select, Cast, CastAll, Leftover, Oldest, PaintedTable, Verdict, Tally;
    CastDelayed(play.records, play.p, play.q, play.x, play.calm, play.p);
    CastDelayed(play.records, play.p, play.q, play.x, play.calm, play.q);
    CastDelayed(play.records, play.p, play.q, play.x, play.calm, play.x);
    forall d | d in Delayed(play.All(), STEADY) ensures d == play.Of(play.p) || d == play.Of(play.q) || d == play.Of(play.x) {
      var r := CastOf(play, d);
      CastDelayed(play.records, play.p, play.q, play.x, play.calm, r);
    }
  }

  /** The first query starts for `p`. */
  lemma FirstQueryOf(play: Play)
    requires play.Valid()
    ensures Rows(Delayed(play.All(), STEADY), play.now, play.Values()) == play.First()
  {
    hide Play.Valid, Passes, Select, WindowStart, Cast, Oldest, SamePattern, SameKinds;
    CastStarts(play);
    ThreeDelayed(play);
    OldestIs(Delayed(play.All(), STEADY), play.now, play.Of(play.p));
  }

  lemma PlayRows(play: Play)
    requires play.Valid()
    ensures var rows := QueryFor(play.p, play.now, play.table);
            var k := Dropped(play.table, play.Start(play.p), play.Bound());
            0 <= k <= |rows| && play.First() == Witness(rows, k) && play.Second() == Witness(rows, k)[k..]
  {
    hide Select, PaintedTable, Witness, Verdict, Tally, Judged, Independent, Cast;
    PaintedIsWitness(play.table, play.Start(play.p) - QUERY_BUFFER, play.Bound() - QUERY_BUFFER);
  }

  lemma PlayJudged(play: Play)
    requires play.Valid()
    ensures Judged(play.Of(play.p), play.now, play.First()) && Judged(play.Of(play.x), play.now, play.Second())
  {
    hide Select, Verdict, Tally, Judged, Independent, SamePattern;
    PatternSelect(play.table, play.Values(), play.Start(play.p) - QUERY_BUFFER);
    PatternSelect(play.table, play.Values(), play.Bound() - QUERY_BUFFER);
    PatternJudged(play.p, play.Of(play.p), play.now, QueryFor(play.p, play.now, play.table), play.First());
    PatternJudged(play.x, play.Of(play.x), play.now, QueryFor(play.q, play.now, play.table), play.Second());
  }

  lemma VerdictIsOne(t: AlertData) returns (n: Notice)
    requires t.min >= 2 && Verdict(t) != []
    ensures Verdict(t) == [n]
  {
    n := Verdict(t)[0];
  }

  lemma JudgedSource(r: Record, now: int, rows: seq<Row>) returns (n: Notice)
    requires Judged(r, now, rows) && Minutes(r.alert) > 1 && Passes(r.alert, STEADY) && Verdict(TallyOf(r, STEADY, now, rows)) != []
    ensures Source(r, n, STEADY, now, rows)
  {
    hide Tally, WindowCount, Verdict, Passes;
    n := VerdictIsOne(TallyOf(r, STEADY, now, rows));
  }

  lemma FirstOfPlay(play: Play) returns (n: Notice)
    requires play.Valid()
    ensures Source(play.Of(play.p), n, STEADY, play.now, play.First())
  {
    hide Select, Verdict, Tally, Judged, Independent, PaintedTable, Witness, Passes;
    CastStarts(play);
    PlayRows(play);
    PlayJudged(play);
    GatesAtSteady(play.p);
    WitnessIsPlain(play.p.alert.name, QueryFor(play.p, play.now, play.table), Dropped(play.table, play.Start(play.p), play.Bound()));
    ReadyGoesOff(play.Of(play.p), play.now, play.First());
    n := JudgedSource(play.Of(play.p), play.now, play.First());
  }

  /** `x` is silent as long as the high values are read. */
  lemma LeanerIsPoised(r: Record, now: int, rows: seq<Row>, k: nat)
    requires Minutes(r.alert) > 1 && PoisedRecord(r) == r && k <= |rows|
    requires !StandsAlone(r.alert.name, WindowStart(r.alert, now), rows, k)
    ensures Verdict(TallyOf(r, STEADY, now, Witness(rows, k))) == []
  {
    hide Tally, WindowCount, Witness, Leans, Average;
    var i: nat, f :| k <= i < |rows| && InWindow(rows[i], WindowStart(r.alert, now)) && Uses(r.alert.name, f) && Leans(rows, k, i, f);
    WitnessIsPlain(r.alert.name, rows, k);
    LeaningReadsHigh(rows, k, i, f);
    assert SameRow(rows[i], Witness(rows, k)[i]);
    NumeratorIsHigh(Data(r, STEADY, now), Witness(rows, k), i, f);
    PoisedIsSilentWhenHigh(TallyOf(r, STEADY, now, Witness(rows, k)));
  }

  lemma PoisedIsSentAtZero(r: Record, now: int, rows: seq<Row>)
    requires Minutes(r.alert) > 1 && PoisedRecord(r) == r && Judged(r, now, rows) && AllZero(r.alert.name, rows, |rows|)
    ensures Verdict(TallyOf(r, STEADY, now, rows)) != []
  {
    hide Tally, WindowCount, Average;
    TallyCounts(Data(r, STEADY, now), rows, |rows|, map[]);
    NumeratorIsZero(Data(r, STEADY, now), rows);
    PoisedGoesOffAtZero(TallyOf(r, STEADY, now, rows));
  }

  lemma SecondOfPlay(play: Play) returns (n: Notice)
    requires play.Valid()
    ensures Source(play.Of(play.x), n, STEADY, play.now, play.Second())
    ensures Verdict(TallyOf(play.Of(play.x), STEADY, play.now, play.First())) == []
  {
    hide Select, Verdict, Tally, Judged, StandsAlone, PaintedTable, Witness, Passes;
    CastStarts(play);
    PlayRows(play);
    PlayJudged(play);
    GatesAtSteady(play.x);
    var rows := QueryFor(play.p, play.now, play.table);
    var k := Dropped(play.table, play.Start(play.p), play.Bound());
    WitnessIsPlain(play.x.alert.name, rows, k);
    LeanerIsPoised(play.Of(play.x), play.now, rows, k);
    PoisedIsSentAtZero(play.Of(play.x), play.now, play.Second());
    n := JudgedSource(play.Of(play.x), play.now, play.Second());
  }

  /** `p` is sent first; `q` and `x` are not. */
  lemma FirstSendsOnly(play: Play)
    requires play.Valid()
    ensures DistinctIds(play.All())
    ensures Sent(Evaluate(play.All(), STEADY, play.now, play.Values()), play.Of(play.p).id)
    ensures !Sent(Evaluate(play.All(), STEADY, play.now, play.Values()), play.Of(play.q).id)
    ensures !Sent(Evaluate(play.All(), STEADY, play.now, play.Values()), play.Of(play.x).id)
  {
    hide Evaluate, Verdict, Tally, Cast, Leftover, Passes, Select, PaintedTable, Sent;
    KindsAreDistinct(play.records, play.All());
    CastStarts(play);
    ThreeDelayed(play);
    FirstQueryOf(play);
    var n1 := FirstOfPlay(play);
    var n2 := SecondOfPlay(play);
    SentHasSource(play.All(), STEADY, play.now, play.Values(), play.Of(play.p));
    SentHasSource(play.All(), STEADY, play.now, play.Values(), play.Of(play.q));
    SentHasSource(play.All(), STEADY, play.now, play.Values(), play.Of(play.x));
  }

  /** Of the three, `p` is no longer delayed. */
  lemma StillDelayed(play: Play, again: seq<Record>)
    requires play.Valid() && Pending(play.All(), STEADY, play.now, play.Values(), again)
    ensures var delayed := Delayed(again, STEADY);
            && play.Of(play.q) in delayed && play.Of(play.x) in delayed
            && forall d :: d in delayed ==> d == play.Of(play.q) || d == play.Of(play.x)
  {
    hide Play.Valid, Evaluate, Passes, Sent, WindowStart, Play.Of, Play.All, Play.Values, Minutes;
    ThreeDelayed(play);
    FirstSendsOnly(play);
  }

  /** The second query starts for `q`. */
  lemma SecondQueryOf(play: Play, again: seq<Record>)
    requires play.Valid() && Pending(play.All(), STEADY, play.now, play.Values(), again)
    ensures Rows(Delayed(again, STEADY), play.now, play.Values()) == play.Second()
    ensures play.Of(play.x) in Delayed(again, STEADY)
  {
    hide Play.Valid, Evaluate, Cast, Passes, Select, PaintedTable, Sent, Oldest, WindowStart, CastAll, Pending;
    CastStarts(play);
    StillDelayed(play, again);
    OldestIs(Delayed(again, STEADY), play.now, play.Of(play.q));
  }

  lemma PlaySendsAgain(play: Play)
    requires play.Valid()
    ensures DistinctIds(play.All()) && !SilentAgain(Stored(play.All()), play.All(), STEADY, play.now, play.Values())
  {
    hide Play.Valid, Evaluate, Passes, Select, PaintedTable, CastAll, Source, Pending, Save;
    FirstSendsOnly(play);
    var alerts := Stored(play.All());
    ReloadedPending(alerts, play.All(), STEADY, play.now, play.Values());
    var again := Again(alerts, play.All(), STEADY, play.now, play.Values());
    SecondQueryOf(play, again);
    var n := SecondOfPlay(play);
    EveryNoticeFlips(again, STEADY, play.now, play.Values(), n);
  }

  /** A leftover reading makes the second evaluation send for some values. */
  lemma LeftoverSendsAgain(records: seq<Record>, p: Record, q: Record, x: Record, now: int, table: seq<Row>)
    requires DistinctIds(records) && InOrder(table) && p in records && q in records && x in records && Leftover(p, q, x, now, table)
    ensures !AlwaysSilent(records, now, table)
  {
    hide Verdict, Tally, Leftover, Evaluate, Select, Cast;
    var calm := ChooseCalm(records, p, q, x, now, table);
    var play := Play(records, p, q, x, now, table, calm);
    PlaySendsAgain(play);
    assert SameKinds(records, play.All()) && SamePattern(table, play.Values());
  }

  /** A threshold and flag with which `q` passes but is not sent first. */
  lemma ChooseCalm(records: seq<Record>, p: Record, q: Record, x: Record, now: int, table: seq<Row>) returns (calm: bool)
    requires DistinctIds(records) && InOrder(table) && p in records && q in records && x in records && Leftover(p, q, x, now, table)
    ensures Play(records, p, q, x, now, table, calm).Valid()
  {
    hide Verdict, Tally, Select, Judged, Independent, PaintedTable, Witness;
    var first := Play(records, p, q, x, now, table, false).First();
    PaintedIsWitness(table, WindowStart(p.alert, now) - QUERY_BUFFER, WindowStart(q.alert, now) - QUERY_BUFFER);
    WitnessIsPlain(q.alert.name, QueryFor(p, now, table), Dropped(table, WindowStart(p.alert, now), WindowStart(q.alert, now)));
    calm := PoisedOrCalm(q, now, first);
    if q != x { OtherIds(records, q, x); }
  }

  lemma OtherIds(records: seq<Record>, r: Record, s: Record)
    requires DistinctIds(records) && r in records && s in records && r != s
    ensures r.id != s.id
  {
  }

  /** For alerts and rows of a given pattern, evaluating a report again after the flags are stored sends nothing,
      whatever is reported, for all thresholds, stored flags and values of the fields present, if and only if no
      alert leans on a row that a shorter second query leaves out. */
  lemma SilentExactly(records: seq<Record>, now: int, table: seq<Row>)
    requires DistinctIds(records) && InOrder(table)
    ensures AlwaysSilent(records, now, table) <==> !CanSendAgain(records, now, table)
  {
    hide SilentAgain, Leftover;
    if CanSendAgain(records, now, table) {
      var p, q, x :| p in records && q in records && x in records && Leftover(p, q, x, now, table);
      LeftoverSendsAgain(records, p, q, x, now, table);
    } else {
      AlwaysSilentWithoutLeftover(records, now, table);
    }
  }

  lemma AlwaysSilentWithoutLeftover(records: seq<Record>, now: int, table: seq<Row>)
    requires DistinctIds(records) && InOrder(table) && !CanSendAgain(records, now, table)
    ensures AlwaysSilent(records, now, table)
  {
    hide CanSendAgain, Evaluate, SamePattern, SameKinds, DistinctIds;
    forall alerts, others, data, rows: seq<Row> | SameKinds(records, others) && Loaded(alerts, others) && SamePattern(table, rows)
      ensures SilentAgain(alerts, others, data, now, rows)
    {
      KindsAreDistinct(records, others);
      PatternOrder(table, rows);
      if CanSendAgain(others, now, rows) { PatternCanSendAgain(records, others, now, table, rows); }
      SilentWithoutLeftover(alerts, others, data, now, rows);
    }
  }
}
