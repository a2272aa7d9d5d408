/** Tiered roll-up and retention of statistics records (internal/records/records.go,
    CreateLongerRecords and deleteOldSystemStats), as operations on the table of records. */
module Rollup {

  /** Times are milliseconds, as stored with each record. */
  const MINUTE: int := 60_000
  const HOUR: int := 60 * MINUTE
  const DAY: int := 24 * HOUR

  datatype RecordType = M1 | M10 | M20 | M120 | M480

  datatype Collection = SystemStats | ContainerStats

  /** What a record says: measured, or the average of these. */
  datatype Content = Measured(sample: nat) | Mean(parts: seq<Content>)

  datatype Row = Row(collection: Collection, system: string, kind: RecordType, created: int, content: Content)

  datatype Tier = Tier(shorter: RecordType, longer: RecordType, window: int, minShorter: nat)

  const TIERS: seq<Tier> := [
    Tier(M1, M10, 10 * MINUTE, 9),
    Tier(M10, M20, 20 * MINUTE, 2),
    Tier(M20, M120, 120 * MINUTE, 6),
    Tier(M120, M480, 480 * MINUTE, 4)
  ]

  const COLLECTIONS: seq<Collection> := [SystemStats, ContainerStats]

  function Retention(kind: RecordType): int {
    match kind
    case M1 => HOUR
    case M10 => 12 * HOUR
    case M20 => DAY
    case M120 => 7 * DAY
    case M480 => 30 * DAY
  }

  function Filter(rows: seq<Row>, p: Row -> bool): seq<Row> {
    var n := |rows| - 1;
    if rows == [] then []
    else Filter(rows[..n], p) + if p(rows[n]) then [rows[n]] else []
  }

  lemma {:induction false} FilterMembers(rows: seq<Row>, p: Row -> bool)
    ensures forall row :: row in Filter(rows, p) <==> row in rows && p(row)
  {
    if rows != [] {
      var n := |rows| - 1;
      FilterMembers(rows[..n], p);
      assert rows == rows[..n] + [rows[n]];
    }
  }

  predicate InSeries(row: Row, collection: Collection, system: string, kind: RecordType) {
    row.collection == collection && row.system == system && row.kind == kind
  }

  function Newer(collection: Collection, system: string, kind: RecordType, after: int): Row -> bool {
    (row: Row) => InSeries(row, collection, system, kind) && row.created > after
  }

  /** Kept by a deletion at `now`. */
  function Retained(now: int): Row -> bool {
    (row: Row) => row.created >= now - Retention(row.kind)
  }

  function Contents(rows: seq<Row>): (r: seq<Content>)
    ensures |r| == |rows|
  {
    seq(|rows|, i requires 0 <= i < |rows| => rows[i].content)
  }

  /** One turn of the innermost loop of `CreateLongerRecords`: the clock is read at `now`, and the
      record, if one is made, is saved at `saved`. */
  datatype Turn = Turn(system: string, tier: Tier, collection: Collection, now: int, saved: int)

  /** A longer record is recent enough already. The 10m tier is not checked. */
  predicate Blocked(rows: seq<Row>, t: Turn) {
    t.tier.longer != M10 && Filter(rows, Newer(t.collection, t.system, t.tier.longer, t.now - t.tier.window + MINUTE)) != []
  }

  function Parts(rows: seq<Row>, t: Turn): seq<Row> {
    Filter(rows, Newer(t.collection, t.system, t.tier.shorter, t.now - t.tier.window))
  }

  /** The records this turn adds: none or one. */
  function Made(rows: seq<Row>, t: Turn): seq<Row> {
    if Blocked(rows, t) || |Parts(rows, t)| < t.tier.minShorter then []
    else [Row(t.collection, t.system, t.tier.longer, t.saved, Mean(Contents(Parts(rows, t))))]
  }

  function Next(rows: seq<Row>, t: Turn): seq<Row> {
    rows + Made(rows, t)
  }

  // ----- the jobs

  datatype Reading = Reading(now: int, saved: int)

  /** The `k`-th turn of the job: systems outermost, then tiers, then collections. */
  function TurnAt(systems: seq<string>, readings: seq<Reading>, k: nat): Turn
    requires k < 8 * |systems| == |readings|
  {
    Turn(systems[k / 8], TIERS[k % 8 / 2], COLLECTIONS[k % 2], readings[k].now, readings[k].saved)
  }

  function AfterTurns(rows: seq<Row>, systems: seq<string>, readings: seq<Reading>, k: nat): seq<Row>
    requires k <= 8 * |systems| == |readings|
  {
    if k == 0 then rows
    else Next(AfterTurns(rows, systems, readings, k - 1), TurnAt(systems, readings, k - 1))
  }

  lemma TurnAtLoop(systems: seq<string>, readings: seq<Reading>, i: nat, j: nat, c: nat)
    requires i < |systems| && |readings| == 8 * |systems| && j < 4 && c < 2
    ensures var k := 8 * i + 2 * j + c;
            TurnAt(systems, readings, k) == Turn(systems[i], TIERS[j], COLLECTIONS[c], readings[k].now, readings[k].saved)
  {
  }

  lemma NextTurn(rows: seq<Row>, systems: seq<string>, readings: seq<Reading>, i: nat, j: nat, c: nat)
    requires i < |systems| && |readings| == 8 * |systems| && j < 4 && c < 2
    ensures var k := 8 * i + 2 * j + c;
            AfterTurns(rows, systems, readings, k + 1)
            == Next(AfterTurns(rows, systems, readings, k), Turn(systems[i], TIERS[j], COLLECTIONS[c], readings[k].now, readings[k].saved))
  {
    TurnAtLoop(systems, readings, i, j, c);
  }

  class RecordManager {
    var rows: seq<Row>

    constructor ()
      ensures rows == []
    {
      rows := [];
    }

    /** `CreateLongerRecords` for the systems that are up. The clock is an input. */
    method CreateLongerRecords(systems: seq<string>, readings: seq<Reading>)
      requires |readings| == 8 * |systems|
      modifies this
      ensures rows == AfterTurns(old(rows), systems, readings, 8 * |systems|)
    {
      ghost var k := 0;
      ghost var done := rows;
      for i := 0 to |systems|
        invariant k == 8 * i && done == AfterTurns(old(rows), systems, readings, k) && rows == done
      {
        for j := 0 to |TIERS|
          invariant k == 8 * i + 2 * j && done == AfterTurns(old(rows), systems, readings, k) && rows == done
        {
          var recordData := TIERS[j];
          for c := 0 to |COLLECTIONS|
            invariant k == 8 * i + 2 * j + c && done == AfterTurns(old(rows), systems, readings, k) && rows == done
          {
            NextTurn(old(rows), systems, readings, i, j, c);
            ghost var next := AfterTurns(old(rows), systems, readings, k + 1);
            var r := readings[8 * i + 2 * j + c];
            CreateLongerRecord(systems[i], recordData, COLLECTIONS[c], r.now, r.saved);
            done, k := next, k + 1;
          }
        }
      }
    }

    /** The body of the innermost loop. */
    method CreateLongerRecord(system: string, recordData: Tier, collection: Collection, now: int, saved: int)
      modifies this
      ensures rows == Next(old(rows), Turn(system, recordData, collection, now, saved))
    {
      if recordData.longer != M10 {
        var recent := CountNewer(collection, system, recordData.longer, now - recordData.window + MINUTE);
        if recent > 0 {
          return;
        }
      }
      var parts := FindNewer(collection, system, recordData.shorter, now - recordData.window);
      if |parts| < recordData.minShorter {
        return;
      }
      rows := rows + [Row(collection, system, recordData.longer, saved, Mean(Contents(parts)))];
    }

    method FindNewer(collection: Collection, system: string, kind: RecordType, after: int) returns (found: seq<Row>)
      ensures found == Filter(rows, Newer(collection, system, kind, after))
    {
      found := [];
      for i := 0 to |rows|
        invariant found == Filter(rows[..i], Newer(collection, system, kind, after))
      {
        assert rows[..i + 1][..i] == rows[..i];
        if InSeries(rows[i], collection, system, kind) && rows[i].created > after {
          found := found + [rows[i]];
        }
      }
      assert rows[..|rows|] == rows;
    }

    method CountNewer(collection: Collection, system: string, kind: RecordType, after: int) returns (count: nat)
      ensures count == |Filter(rows, Newer(collection, system, kind, after))|
    {
      var found := FindNewer(collection, system, kind, after);
      count := |found|;
    }

    /** `deleteOldSystemStats`. */
    method DeleteOldSystemStats(now: int)
      modifies this
      ensures rows == Filter(old(rows), Retained(now))
    {
      var kept := [];
      for i := 0 to |rows|
        invariant rows == old(rows) && kept == Filter(rows[..i], Retained(now))
      {
        assert rows[..i + 1][..i] == rows[..i];
        if !(rows[i].created < now - Retention(rows[i].kind)) {
          kept := kept + [rows[i]];
        }
      }
      assert rows[..|rows|] == rows;
      rows := kept;
    }
  }

  // ----- runs

  /** `made` logs the records that roll-up turns added. */
  datatype State = State(rows: seq<Row>, made: seq<Row>)

  datatype Event = Measure(row: Row) | RollUp(turn: Turn) | Delete(now: int)

  function Step(s: State, e: Event): State {
    match e
    case Measure(row) => if row.kind == M1 then s.(rows := s.rows + [row]) else s
    case RollUp(turn) => State(Next(s.rows, turn), s.made + Made(s.rows, turn))
    case Delete(now) => s.(rows := Filter(s.rows, Retained(now)))
  }

  function Run(s: State, es: seq<Event>): State
    decreases |es|
  {
    if es == [] then s else Run(Step(s, es[0]), es[1..])
  }

  // ----- retention commutes with roll-up

  lemma {:induction false} FilterTwice(rows: seq<Row>, p: Row -> bool, q: Row -> bool)
    requires forall row :: row in rows && q(row) ==> p(row)
    ensures Filter(Filter(rows, p), q) == Filter(rows, q)
  {
    if rows != [] {
      var n := |rows| - 1;
      assert rows == rows[..n] + [rows[n]];
      assert forall row :: row in rows[..n] ==> row in rows;
      FilterTwice(rows[..n], p, q);
      var kept := Filter(rows[..n], p);
      if p(rows[n]) {
        assert (kept + [rows[n]])[..|kept|] == kept;
        assert Filter(kept + [rows[n]], q) == Filter(kept, q) + if q(rows[n]) then [rows[n]] else [];
      } else {
        assert kept + [] == kept && Filter(rows[..n], q) + [] == Filter(rows[..n], q);
      }
    }
  }

  lemma FilterAppend(rows: seq<Row>, row: Row, p: Row -> bool)
    ensures Filter(rows + [row], p) == Filter(rows, p) + if p(row) then [row] else []
  {
    assert (rows + [row])[..|rows|] == rows;
  }

  predicate IsTurn(t: Turn) {
    t.tier in TIERS && t.now <= t.saved
  }

  /** A query for records younger than their retention is not affected by the deletion. */
  lemma YoungSurvive(rows: seq<Row>, collection: Collection, system: string, kind: RecordType, after: int, d: int)
    requires d - Retention(kind) <= after + 1
    ensures Filter(Filter(rows, Retained(d)), Newer(collection, system, kind, after)) == Filter(rows, Newer(collection, system, kind, after))
  {
    FilterTwice(rows, Retained(d), Newer(collection, system, kind, after));
  }

  lemma TierWithinRetention(tier: Tier)
    requires tier in TIERS
    ensures 0 < tier.window <= Retention(tier.shorter) && tier.window <= Retention(tier.longer)
    ensures tier.longer != M1
    ensures tier.longer != M10 ==> Gap(tier.longer) == tier.window - MINUTE
  {
  }

  /** Every record a turn looks at is young enough to survive a deletion at or before the turn. */
  lemma TurnSeesRetained(rows: seq<Row>, t: Turn, d: int)
    requires IsTurn(t) && d <= t.now
    ensures Made(Filter(rows, Retained(d)), t) == Made(rows, t)
  {
    hide Filter, Retention;
    TierWithinRetention(t.tier);
    YoungSurvive(rows, t.collection, t.system, t.tier.longer, t.now - t.tier.window + MINUTE, d);
    YoungSurvive(rows, t.collection, t.system, t.tier.shorter, t.now - t.tier.window, d);
  }

  /** No turn reads the clock before an earlier deletion did. `last` is the latest deletion so far. */
  predicate InOrder(es: seq<Event>, last: int)
    decreases |es|
  {
    es == [] ||
    match es[0]
    case Measure(_) => InOrder(es[1..], last)
    case RollUp(turn) => IsTurn(turn) && last <= turn.now && InOrder(es[1..], last)
    case Delete(now) => InOrder(es[1..], if last < now then now else last)
  }

  function WithoutDeletes(es: seq<Event>): seq<Event> {
    if es == [] then [] else (if es[0].Delete? then [] else [es[0]]) + WithoutDeletes(es[1..])
  }

  lemma {:induction false} RunsMakeTheSame(a: State, b: State, es: seq<Event>, last: int)
    requires a.made == b.made && Filter(a.rows, Retained(last)) == Filter(b.rows, Retained(last))
    requires InOrder(es, last)
    ensures Run(a, es).made == Run(b, WithoutDeletes(es)).made
    decreases |es|
  {
    if es != [] {
      var e, rest := es[0], es[1..];
      var a' := Step(a, e);
      if e.Delete? {
        var next := if last < e.now then e.now else last;
        FilterTwice(a.rows, Retained(e.now), Retained(next));
        FilterTwice(a.rows, Retained(last), Retained(next));
        FilterTwice(b.rows, Retained(last), Retained(next));
        RunsMakeTheSame(a', b, rest, next);
        assert WithoutDeletes(es) == WithoutDeletes(rest);
      } else {
        var b' := Step(b, e);
        if e.Measure? {
          FilterAppend(a.rows, e.row, Retained(last));
          FilterAppend(b.rows, e.row, Retained(last));
        } else {
          TurnSeesRetained(a.rows, e.turn, last);
          TurnSeesRetained(b.rows, e.turn, last);
          var made := Made(a.rows, e.turn);
          if made != [] {
            FilterAppend(a.rows, made[0], Retained(last));
            FilterAppend(b.rows, made[0], Retained(last));
          } else {
            assert a.rows + [] == a.rows && b.rows + [] == b.rows;
          }
        }
        RunsMakeTheSame(a', b', rest, last);
        assert WithoutDeletes(es) == [e] + WithoutDeletes(rest);
      }
    }
  }

  /** Retention is unobservable to roll-up: in any run, however deletions are interleaved, the same
      longer records are made, at the same times and from the same parts, as with no deletion. */
  lemma RetentionCommutes(es: seq<Event>, first: int)
    requires InOrder(es, first)
    ensures Run(State([], []), es).made == Run(State([], []), WithoutDeletes(es)).made
  {
    RunsMakeTheSame(State([], []), State([], []), es, first);
  }

  // ----- spacing

  /** The least distance between two records of a checked tier. */
  function Gap(kind: RecordType): int {
    match kind
    case M1 => 0
    case M10 => 0
    case M20 => 19 * MINUTE
    case M120 => 119 * MINUTE
    case M480 => 479 * MINUTE
  }

  predicate Checked(kind: RecordType) {
    kind == M20 || kind == M120 || kind == M480
  }

  predicate SameSeries(a: Row, b: Row) {
    a.collection == b.collection && a.system == b.system && a.kind == b.kind
  }

  ghost predicate Spaced(rows: seq<Row>) {
    forall i, j :: 0 <= i < j < |rows| && SameSeries(rows[i], rows[j]) && Checked(rows[i].kind) ==>
      rows[i].created + Gap(rows[i].kind) <= rows[j].created
  }

  lemma {:induction false} FilterSpaced(rows: seq<Row>, p: Row -> bool)
    requires Spaced(rows)
    ensures Spaced(Filter(rows, p))
  {
    if rows != [] {
      var n := |rows| - 1;
      FilterSpaced(rows[..n], p);
      FilterMembers(rows[..n], p);
      forall i | 0 <= i < |Filter(rows[..n], p)| && SameSeries(Filter(rows[..n], p)[i], rows[n]) && Checked(rows[n].kind)
        ensures Filter(rows[..n], p)[i].created + Gap(rows[n].kind) <= rows[n].created
      {
        var row := Filter(rows[..n], p)[i];
        assert row in rows[..n];
        var k :| 0 <= k < n && rows[k] == row;
      }
    }
  }

  lemma TurnKeepsSpaced(rows: seq<Row>, t: Turn)
    requires Spaced(rows) && IsTurn(t)
    ensures Spaced(Next(rows, t))
  {
    if Made(rows, t) != [] && t.tier.longer != M10 {
      var after := t.now - t.tier.window + MINUTE;
      TierWithinRetention(t.tier);
      FilterMembers(rows, Newer(t.collection, t.system, t.tier.longer, after));
      forall i | 0 <= i < |rows| && InSeries(rows[i], t.collection, t.system, t.tier.longer)
        ensures rows[i].created <= after
      {
        assert rows[i] !in Filter(rows, Newer(t.collection, t.system, t.tier.longer, after));
      }
    }
  }

  predicate AllTurns(es: seq<Event>) {
    forall i :: 0 <= i < |es| && es[i].RollUp? ==> IsTurn(es[i].turn)
  }

  /** Tier spacing, in every run: records of one system, collection and checked tier are at least the
      tier's period less a minute apart. */
  lemma {:induction false} RunsAreSpaced(s: State, es: seq<Event>)
    requires Spaced(s.rows) && AllTurns(es)
    ensures Spaced(Run(s, es).rows)
    decreases |es|
  {
    if es != [] {
      match es[0] {
        case Measure(row) =>
        case RollUp(turn) => TurnKeepsSpaced(s.rows, turn);
        case Delete(now) => FilterSpaced(s.rows, Retained(now));
      }
      assert AllTurns(es[1..]);
      RunsAreSpaced(Step(s, es[0]), es[1..]);
    }
  }

  // ----- storage

  function Series(rows: seq<Row>, collection: Collection, system: string, kind: RecordType): seq<Row> {
    Filter(rows, InSeriesOf(collection, system, kind))
  }

  function InSeriesOf(collection: Collection, system: string, kind: RecordType): Row -> bool {
    (row: Row) => InSeries(row, collection, system, kind)
  }

  /** `n` records at least `gap` apart need `(n - 1) * gap` of time. */
  lemma {:induction false} SpacedNeedsTime(rows: seq<Row>, kind: RecordType)
    requires rows != [] && Checked(kind) && Spaced(rows)
    requires forall i :: 0 <= i < |rows| ==> SameSeries(rows[i], rows[0]) && rows[i].kind == kind
    ensures (|rows| - 1) * Gap(kind) <= rows[|rows| - 1].created - rows[0].created
  {
    var n := |rows| - 1;
    if n > 0 {
      SpacedNeedsTime(rows[..n], kind);
      assert n * Gap(kind) == (n - 1) * Gap(kind) + Gap(kind);
    }
  }

  /** Right after a deletion at `now`, with no record dated later, the records of a checked tier, one
      system and one collection fit their spacing into the retention. */
  lemma StorageBound(rows: seq<Row>, now: int, collection: Collection, system: string, kind: RecordType)
    requires Spaced(rows) && Checked(kind)
    requires forall row :: row in rows ==> row.created <= now
    ensures var series := Series(Filter(rows, Retained(now)), collection, system, kind);
            series == [] || (|series| - 1) * Gap(kind) <= Retention(kind)
  {
    hide Filter, Spaced, Gap;
    var kept := Filter(rows, Retained(now));
    var series := Series(kept, collection, system, kind);
    FilterSpaced(rows, Retained(now));
    FilterSpaced(kept, InSeriesOf(collection, system, kind));
    FilterMembers(rows, Retained(now));
    FilterMembers(kept, InSeriesOf(collection, system, kind));
    if series != [] {
      assert forall i :: 0 <= i < |series| ==> series[i] in series;
      SpacedNeedsTime(series, kind);
    }
  }

  /** Records are dated by the clock, which does not go back. */
  predicate Clocked(es: seq<Event>, clock: int)
    decreases |es|
  {
    es == [] ||
    match es[0]
    case Measure(row) => clock <= row.created && Clocked(es[1..], row.created)
    case RollUp(turn) => IsTurn(turn) && clock <= turn.saved && Clocked(es[1..], turn.saved)
    case Delete(now) => clock <= now && Clocked(es[1..], now)
  }

  function ClockAfter(es: seq<Event>, clock: int): int {
    if es == [] then clock
    else
      var e := es[|es| - 1];
      match e
      case Measure(row) => row.created
      case RollUp(turn) => turn.saved
      case Delete(now) => now
  }

  lemma {:induction false} RowsUpToClock(s: State, es: seq<Event>, clock: int)
    requires Clocked(es, clock) && forall row :: row in s.rows ==> row.created <= clock
    ensures forall row :: row in Run(s, es).rows ==> row.created <= ClockAfter(es, clock)
    ensures clock <= ClockAfter(es, clock)
    decreases |es|
  {
    if es != [] {
      if es[0].Delete? {
        FilterMembers(s.rows, Retained(es[0].now));
      }
      RowsUpToClock(Step(s, es[0]), es[1..], ClockAfter([es[0]], clock));
      assert |es| > 1 ==> es[1..][|es| - 2] == es[|es| - 1];
    }
  }

  lemma {:induction false} ClockedTurns(es: seq<Event>, clock: int)
    requires Clocked(es, clock)
    ensures AllTurns(es)
    decreases |es|
  {
    if es != [] {
      ClockedTurns(es[1..], ClockAfter([es[0]], clock));
      assert forall i :: 1 <= i < |es| ==> es[i] == es[1..][i - 1];
    }
  }

  lemma RunIsBounded(es: seq<Event>, clock: int, now: int, collection: Collection, system: string, kind: RecordType)
    requires Clocked(es, clock) && ClockAfter(es, clock) <= now && Checked(kind)
    ensures var series := Series(Filter(Run(State([], []), es).rows, Retained(now)), collection, system, kind);
            series == [] || (|series| - 1) * Gap(kind) <= Retention(kind)
  {
    ClockedTurns(es, clock);
    RunsAreSpaced(State([], []), es);
    RowsUpToClock(State([], []), es, clock);
    StorageBound(Run(State([], []), es).rows, now, collection, system, kind);
  }

  lemma FitsRetention(n: nat, kind: RecordType)
    requires Checked(kind) && (n == 0 || (n - 1) * Gap(kind) <= Retention(kind))
    ensures n <= match kind case M20 => 76 case M120 => 85 case _ => 91
  {
  }

  /** The storage bound in every run: after any deletion, at most 76 20-minute, 85 two-hour and 91
      eight-hour records of one system and collection are left. */
  lemma StorageIsBounded(es: seq<Event>, clock: int, now: int, collection: Collection, system: string, kind: RecordType)
    requires Clocked(es, clock) && ClockAfter(es, clock) <= now && Checked(kind)
    ensures |Series(Step(Run(State([], []), es), Delete(now)).rows, collection, system, kind)|
         <= match kind case M20 => 76 case M120 => 85 case _ => 91
  {
    RunIsBounded(es, clock, now, collection, system, kind);
    FitsRetention(|Series(Filter(Run(State([], []), es).rows, Retained(now)), collection, system, kind)|, kind);
  }

  // ----- what a longer record averages

  /** How long a record of this type stands for. */
  function Period(kind: RecordType): int {
    match kind
    case M1 => 60_000
    case M10 => 600_000
    case M20 => 1_200_000
    case M120 => 7_200_000
    case M480 => 28_800_000
  }

  function ShorterOf(kind: RecordType): RecordType {
    match kind
    case M1 => M1
    case M10 => M1
    case M20 => M10
    case M120 => M20
    case M480 => M120
  }

  /** A longer record is made from records of the next shorter type that cover at least nine tenths of its period. */
  lemma TiersCoverPeriods(tier: Tier)
    requires tier in TIERS
    ensures tier.longer != M1 && tier.shorter == ShorterOf(tier.longer) && tier.window == Period(tier.longer)
    ensures 10 * tier.minShorter * Period(tier.shorter) >= 9 * tier.window
    ensures 10 * (tier.minShorter - 1) * Period(tier.shorter) < 9 * tier.window
  {
  }

  /** The positions whose rows pass, in order. */
  predicate Passing(rows: seq<Row>, p: Row -> bool, at: seq<nat>) {
    && (forall j :: 0 <= j < |at| ==> at[j] < |rows|)
    && (forall j, k :: 0 <= j < k < |at| ==> at[j] < at[k])
    && (forall i :: 0 <= i < |rows| ==> (i in at <==> p(rows[i])))
  }

  lemma PassingNext(rows: seq<Row>, p: Row -> bool, at: seq<nat>)
    requires rows != [] && Passing(rows[..|rows| - 1], p, at)
    ensures Passing(rows, p, if p(rows[|rows| - 1]) then at + [|rows| - 1] else at)
  {
    var n := |rows| - 1;
    assert forall i :: 0 <= i < n ==> rows[i] == rows[..n][i];
    forall j | 0 <= j < |at| ensures at[j] < n && at[j] in at {
    }
  }

  lemma NonePassing(p: Row -> bool)
    ensures Passing([], p, [])
  {
  }

  lemma {:induction false} FilterPositions(rows: seq<Row>, p: Row -> bool) returns (at: seq<nat>)
    ensures Passing(rows, p, at)
    ensures |Filter(rows, p)| == |at|
    ensures forall j :: 0 <= j < |at| ==> at[j] < |rows| && Filter(rows, p)[j] == rows[at[j]]
  {
    hide Passing;
    at := [];
    if rows == [] {
      NonePassing(p);
    } else {
      var n := |rows| - 1;
      at := FilterPositions(rows[..n], p);
      PassingNext(rows, p, at);
      if p(rows[n]) { at := at + [n]; }
    }
  }

  /** A row of the series from within the period before the turn. */
  predicate IsPart(row: Row, t: Turn) {
    && row.collection == t.collection && row.system == t.system && row.kind == ShorterOf(t.tier.longer)
    && row.created > t.now - Period(t.tier.longer)
  }

  /** A longer record of the series made less than a period, and a minute's tolerance, ago. */
  predicate IsRecent(row: Row, t: Turn) {
    && row.collection == t.collection && row.system == t.system && row.kind == t.tier.longer
    && row.created > t.now - Period(t.tier.longer) + 60_000
  }

  /** The positions of the parts, in order. */
  predicate PartsAt(rows: seq<Row>, t: Turn, at: seq<nat>) {
    && (forall j :: 0 <= j < |at| ==> at[j] < |rows|)
    && (forall j, k :: 0 <= j < k < |at| ==> at[j] < at[k])
    && (forall i :: 0 <= i < |rows| ==> (i in at <==> IsPart(rows[i], t)))
  }

  /** A turn adds one longer record exactly when the records of the shorter type from the period before it cover
      nine tenths of the period and, except for ten-minute records, no longer record is recent. What is added
      averages all those records, each of them once. */
  lemma MadeExactly(rows: seq<Row>, t: Turn) returns (at: seq<nat>)
    requires t.tier in TIERS
    ensures PartsAt(rows, t, at)
    ensures Made(rows, t) != [] <==>
              && 10 * |at| * Period(ShorterOf(t.tier.longer)) >= 9 * Period(t.tier.longer)
              && (t.tier.longer != M10 ==> forall row :: row in rows ==> !IsRecent(row, t))
    ensures Made(rows, t) != [] ==>
              Made(rows, t) == [Row(t.collection, t.system, t.tier.longer, t.saved,
                                    Mean(seq(|at|, j requires 0 <= j < |at| => rows[at[j]].content)))]
  {
    TiersCoverPeriods(t.tier);
    var newer := Newer(t.collection, t.system, t.tier.shorter, t.now - t.tier.window);
    at := FilterPositions(rows, newer);
    CoversEnough(t.tier, |at|);
    BlockedExactly(rows, t);
    hide Blocked, IsRecent, Period, ShorterOf, Filter;
    assert Contents(Parts(rows, t)) == seq(|at|, j requires 0 <= j < |at| => rows[at[j]].content);
  }

  lemma BlockedExactly(rows: seq<Row>, t: Turn)
    requires t.tier in TIERS
    ensures Blocked(rows, t) <==> t.tier.longer != M10 && exists row :: row in rows && IsRecent(row, t)
  {
    TiersCoverPeriods(t.tier);
    var newer := Newer(t.collection, t.system, t.tier.longer, t.now - t.tier.window + MINUTE);
    FilterMembers(rows, newer);
    if Filter(rows, newer) != [] { assert Filter(rows, newer)[0] in Filter(rows, newer); }
  }

  lemma CoversEnough(tier: Tier, n: nat)
    requires tier in TIERS
    ensures n >= tier.minShorter <==> 10 * n * Period(tier.shorter) >= 9 * Period(tier.longer)
  {
  }

  /** How long records are kept, and that a deletion takes exactly the older ones. */
  lemma {:induction false} DeletesExactly(rows: seq<Row>, now: int, row: Row)
    ensures row in Filter(rows, Retained(now)) <==>
              row in rows && row.created >= now - match row.kind
                                                  case M1 => 3_600_000
                                                  case M10 => 43_200_000
                                                  case M20 => 86_400_000
                                                  case M120 => 604_800_000
                                                  case M480 => 2_592_000_000
  {
    FilterMembers(rows, Retained(now));
  }

  /** The job takes a turn for every system, every longer type and both collections, and for a system those of a
      shorter type come before those of a longer one, so that fresh averages are averaged on. */
  lemma JobTakesEveryTurn(systems: seq<string>, readings: seq<Reading>, i: nat, kind: RecordType, collection: Collection)
      returns (k: nat)
    requires i < |systems| && |readings| == 8 * |systems| && kind != M1
    ensures k < |readings|
    ensures var t := TurnAt(systems, readings, k);
            t.system == systems[i] && t.tier in TIERS && t.tier.longer == kind && t.collection == collection
            && t.now == readings[k].now && t.saved == readings[k].saved
    ensures 8 * i <= k < 8 * (i + 1)
    ensures forall j :: 8 * i <= j < k ==> Period(TurnAt(systems, readings, j).tier.longer) <= Period(kind)
  {
    var tier := match kind case M10 => 0 case M20 => 1 case M120 => 2 case _ => 3;
    var c := if collection == SystemStats then 0 else 1;
    k := 8 * i + 2 * tier + c;
    TurnAtLoop(systems, readings, i, tier, c);
    forall j | 8 * i <= j < k ensures Period(TurnAt(systems, readings, j).tier.longer) <= Period(kind) {
      var m, d := (j - 8 * i) / 2, (j - 8 * i) % 2;
      TurnAtLoop(systems, readings, i, m, d);
      assert j == 8 * i + 2 * m + d && m <= tier;
    }
  }
}
