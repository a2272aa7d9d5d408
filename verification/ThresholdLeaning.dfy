/** Rows that lean on earlier ones (internal/alerts/alerts_system.go): all rows are decoded into one variable,
    so that a field a row does not have keeps the reading of a row before it. */
module ThresholdLeaning {
  import opened Options
  import opened ThresholdAlerts
  import opened ThresholdProperties

  // ----- fields

  datatype Field =
    | CpuField | MemField | DiskField | SentField | RecvField | Load1Field | Load5Field | Load15Field | BatteryField
    | SensorField(sensor: string) | GpuField(gpu: string)

  /** The alert reads the field. */
  predicate Uses(name: Name, f: Field) {
    match name
    case CPU => f.CpuField?
    case Memory => f.MemField?
    case Bandwidth => f.SentField? || f.RecvField?
    case Disk => f.DiskField?
    case Temperature => f.SensorField?
    case LoadAvg1 => f.Load1Field?
    case LoadAvg5 => f.Load5Field?
    case LoadAvg15 => f.Load15Field?
    case GPU => f.GpuField?
    case Battery => f.BatteryField?
    case Other => false
  }

  predicate Carries(e: Encoded, f: Field) {
    match f
    case CpuField => e.cpu.Some?
    case MemField => e.mem.Some?
    case DiskField => e.disk.Some?
    case SentField => e.netSent.Some?
    case RecvField => e.netRecv.Some?
    case Load1Field => e.load.Some?
    case Load5Field => e.load.Some?
    case Load15Field => e.load.Some?
    case BatteryField => e.battery.Some?
    case SensorField(sensor) => sensor in e.temperatures
    case GpuField(gpu) => gpu in e.gpu
  }

  function Encodes(e: Encoded, f: Field): real
    requires Carries(e, f)
  {
    match f
    case CpuField => e.cpu.value
    case MemField => e.mem.value
    case DiskField => e.disk.value
    case SentField => e.netSent.value
    case RecvField => e.netRecv.value
    case Load1Field => e.load.value.0
    case Load5Field => e.load.value.1
    case Load15Field => e.load.value.2
    case BatteryField => e.battery.value as real
    case SensorField(sensor) => e.temperatures[sensor]
    case GpuField(gpu) => e.gpu[gpu]
  }

  /** What the decoded statistics say; None for a sensor or GPU that they do not know. */
  function FieldOf(s: Stats, f: Field): Option<real> {
    match f
    case CpuField => Some(s.cpu)
    case MemField => Some(s.mem)
    case DiskField => Some(s.disk)
    case SentField => Some(s.netSent)
    case RecvField => Some(s.netRecv)
    case Load1Field => Some(s.load.0)
    case Load5Field => Some(s.load.1)
    case Load15Field => Some(s.load.2)
    case BatteryField => Some(s.battery as real)
    case SensorField(sensor) => if sensor in s.temperatures then Some(s.temperatures[sensor]) else None
    case GpuField(gpu) => if gpu in s.gpu then Some(s.gpu[gpu]) else None
  }

  predicate Has(row: Row, f: Field) {
    row.stats.Some? && Carries(row.stats.value, f)
  }

  lemma FieldNext(rows: seq<Row>, n: nat, f: Field)
    requires 0 < n <= |rows|
    ensures FieldOf(StatsAfter(rows, n), f)
         == if Has(rows[n - 1], f) then Some(Encodes(rows[n - 1].stats.value, f)) else FieldOf(StatsAfter(rows, n - 1), f)
  {
  }

  // ----- leaning

  /** In row `i`, the field comes from a row before `k`. */
  ghost predicate Leans(rows: seq<Row>, k: nat, i: nat, f: Field)
    requires k <= i < |rows|
  {
    (exists j :: 0 <= j < k && Has(rows[j], f)) && (forall j :: k <= j <= i ==> !Has(rows[j], f))
  }

  /** No row in the window leans on a row before `k` in a field that the alert reads. */
  ghost predicate StandsAlone(name: Name, time: int, rows: seq<Row>, k: nat) {
    forall i: nat, f :: k <= i < |rows| && InWindow(rows[i], time) && Uses(name, f) ==> !Leans(rows, k, i, f)
  }

  lemma {:induction false} FieldAbsent(rows: seq<Row>, n: nat, f: Field)
    requires n <= |rows| && forall j :: 0 <= j < n ==> !Has(rows[j], f)
    ensures FieldOf(StatsAfter(rows, n), f) == FieldOf(NO_STATS, f)
  {
    if n > 0 {
      FieldAbsent(rows, n - 1, f);
      FieldNext(rows, n, f);
    }
  }

  lemma {:induction false} FieldSame(rows: seq<Row>, k: nat, n: nat, f: Field)
    requires 0 < n && k + n <= |rows| && !Leans(rows, k, k + n - 1, f)
    ensures FieldOf(StatsAfter(rows, k + n), f) == FieldOf(StatsAfter(rows[k..], n), f)
  {
    FieldNext(rows, k + n, f);
    FieldNext(rows[k..], n, f);
    if !Has(rows[k + n - 1], f) {
      if n > 1 {
        assert !Leans(rows, k, k + n - 2, f);
        FieldSame(rows, k, n - 1, f);
      } else {
        FieldAbsent(rows, k, f);
        FieldAbsent(rows[k..], 0, f);
      }
    }
  }

  /** The two decodings agree on what the alert reads. */
  predicate SameFor(name: Name, s: Stats, t: Stats) {
    match name
    case CPU => s.cpu == t.cpu
    case Memory => s.mem == t.mem
    case Bandwidth => s.netSent == t.netSent && s.netRecv == t.netRecv
    case Disk => s.disk == t.disk
    case Temperature => s.temperatures == t.temperatures
    case LoadAvg1 => s.load.0 == t.load.0
    case LoadAvg5 => s.load.1 == t.load.1
    case LoadAvg15 => s.load.2 == t.load.2
    case GPU => s.gpu == t.gpu
    case Battery => s.battery == t.battery
    case Other => true
  }

  lemma SameByFields(name: Name, s: Stats, t: Stats)
    requires forall f :: Uses(name, f) ==> FieldOf(s, f) == FieldOf(t, f)
    ensures SameFor(name, s, t)
  {
    assert Uses(name, CpuField) ==> FieldOf(s, CpuField) == FieldOf(t, CpuField);
    assert Uses(name, MemField) ==> FieldOf(s, MemField) == FieldOf(t, MemField);
    assert Uses(name, DiskField) ==> FieldOf(s, DiskField) == FieldOf(t, DiskField);
    assert Uses(name, SentField) ==> FieldOf(s, SentField) == FieldOf(t, SentField);
    assert Uses(name, RecvField) ==> FieldOf(s, RecvField) == FieldOf(t, RecvField);
    assert Uses(name, Load1Field) ==> FieldOf(s, Load1Field) == FieldOf(t, Load1Field);
    assert Uses(name, Load5Field) ==> FieldOf(s, Load5Field) == FieldOf(t, Load5Field);
    assert Uses(name, Load15Field) ==> FieldOf(s, Load15Field) == FieldOf(t, Load15Field);
    assert Uses(name, BatteryField) ==> FieldOf(s, BatteryField) == FieldOf(t, BatteryField);
    if name.Temperature? {
      forall key ensures (key in s.temperatures <==> key in t.temperatures)
                         && (key in s.temperatures ==> s.temperatures[key] == t.temperatures[key]) {
        assert FieldOf(s, SensorField(key)) == FieldOf(t, SensorField(key));
      }
      assert s.temperatures == t.temperatures;
    }
    if name.GPU? {
      forall key ensures (key in s.gpu <==> key in t.gpu) && (key in s.gpu ==> s.gpu[key] == t.gpu[key]) {
        assert FieldOf(s, GpuField(key)) == FieldOf(t, GpuField(key));
      }
      assert s.gpu == t.gpu;
    }
  }

  lemma AddSame(a: AlertData, s: Stats, t: Stats, extraFs: map<string, real>)
    requires SameFor(a.name, s, t)
    ensures Add(a, s, extraFs) == Add(a, t, extraFs)
  {
  }

  /** The first rows are before the window. */
  predicate Before(rows: seq<Row>, k: nat, time: int) {
    k <= |rows| && forall i :: 0 <= i < k ==> !InWindow(rows[i], time)
  }

  /** Rows before the window make no difference to an alert whose window stands alone. */
  lemma {:induction false} SuffixTally(a: AlertData, rows: seq<Row>, k: nat, n: nat, extraFs: map<string, real>)
    requires k + n <= |rows| && Before(rows, k, a.time) && StandsAlone(a.name, a.time, rows, k)
    ensures Tally(a, rows, k + n, extraFs) == Tally(a, rows[k..], n, extraFs)
    decreases k + n
  {
    if n > 0 {
      SuffixTally(a, rows, k, n - 1, extraFs);
      if InWindow(rows[k + n - 1], a.time) {
        TallyKeeps(a, rows, k + n - 1, extraFs);
        forall f | Uses(a.name, f) ensures FieldOf(StatsAfter(rows, k + n), f) == FieldOf(StatsAfter(rows[k..], n), f) {
          assert !Leans(rows, k, k + n - 1, f);
          FieldSame(rows, k, n, f);
        }
        SameByFields(a.name, StatsAfter(rows, k + n), StatsAfter(rows[k..], n));
        AddSame(Tally(a, rows, k + n - 1, extraFs), StatsAfter(rows, k + n), StatsAfter(rows[k..], n), extraFs);
      }
    } else if k > 0 {
      BeforeTally(a, rows, k, extraFs);
    }
  }

  lemma {:induction false} BeforeTally(a: AlertData, rows: seq<Row>, k: nat, extraFs: map<string, real>)
    requires Before(rows, k, a.time)
    ensures Tally(a, rows, k, extraFs) == a.(val := 0.0)
  {
    if k > 0 { BeforeTally(a, rows, k - 1, extraFs); }
  }

  // ----- patterns

  /** The same fields are present. */
  predicate SamePresence(e: Encoded, d: Encoded) {
    && e.cpu.Some? == d.cpu.Some? && e.mem.Some? == d.mem.Some? && e.disk.Some? == d.disk.Some?
    && e.netSent.Some? == d.netSent.Some? && e.netRecv.Some? == d.netRecv.Some? && e.load.Some? == d.load.Some?
    && e.battery.Some? == d.battery.Some? && e.gpu.Keys == d.gpu.Keys && e.temperatures.Keys == d.temperatures.Keys
  }

  predicate SameRow(r: Row, q: Row) {
    r.created == q.created && r.stats.Some? == q.stats.Some?
    && (r.stats.Some? ==> SamePresence(r.stats.value, q.stats.value))
  }

  /** The same rows but for the values of their fields. */
  predicate SamePattern(rows: seq<Row>, others: seq<Row>) {
    |rows| == |others| && forall i :: 0 <= i < |rows| ==> SameRow(rows[i], others[i])
  }

  lemma PatternHas(rows: seq<Row>, others: seq<Row>, i: nat, f: Field)
    requires SamePattern(rows, others) && i < |rows|
    ensures Has(rows[i], f) == Has(others[i], f)
  {
    assert SameRow(rows[i], others[i]);
  }

  lemma PatternStandsAlone(name: Name, time: int, rows: seq<Row>, others: seq<Row>, k: nat)
    requires SamePattern(rows, others) && StandsAlone(name, time, rows, k)
    ensures StandsAlone(name, time, others, k)
  {
    forall i: nat, f | k <= i < |others| && InWindow(others[i], time) && Uses(name, f) ensures !Leans(others, k, i, f) {
      assert SameRow(rows[i], others[i]);
      assert !Leans(rows, k, i, f);
      forall j: nat | j <= i ensures Has(rows[j], f) == Has(others[j], f) { PatternHas(rows, others, j, f); }
    }
  }

  lemma {:induction false} PatternKeys(rows: seq<Row>, others: seq<Row>, n: nat)
    requires SamePattern(rows, others) && n <= |rows|
    ensures StatsAfter(rows, n).gpu.Keys == StatsAfter(others, n).gpu.Keys
  {
    if n > 0 {
      PatternKeys(rows, others, n - 1);
      assert SameRow(rows[n - 1], others[n - 1]);
    }
  }

  /** How many rows count depends on the pattern only. */
  lemma {:induction false} PatternCount(name: Name, time: int, rows: seq<Row>, others: seq<Row>, n: nat)
    requires SamePattern(rows, others) && n <= |rows|
    ensures WindowCount(name, time, rows, n) == WindowCount(name, time, others, n)
  {
    if n > 0 {
      PatternCount(name, time, rows, others, n - 1);
      assert SameRow(rows[n - 1], others[n - 1]);
      PatternKeys(rows, others, n);
      assert StatsAfter(rows, n).gpu == map[] <==> StatsAfter(rows, n).gpu.Keys == {};
      assert StatsAfter(others, n).gpu == map[] <==> StatsAfter(others, n).gpu.Keys == {};
    }
  }

  /** Enough minutes of the window for a verdict. */
  ghost predicate EnoughRows(a: AlertData, rows: seq<Row>) {
    6 * (WindowCount(a.name, a.time, rows, |rows|) % 256) >= 5 * a.min
  }

  /** What the alert sends on these rows. */
  ghost function Outcome(a: AlertData, rows: seq<Row>, extraFs: map<string, real>): seq<Notice>
    requires a.min >= 2
  {
    TallyKeeps(a, rows, |rows|, extraFs);
    Verdict(Tally(a, rows, |rows|, extraFs))
  }

  lemma EnoughIsEnoughRows(a: AlertData, rows: seq<Row>, extraFs: map<string, real>)
    requires IsFresh(a)
    ensures Enough(Tally(a, rows, |rows|, extraFs)) <==> EnoughRows(a, rows)
  {
    TallyCounts(a, rows, |rows|, extraFs);
    TallyKeeps(a, rows, |rows|, extraFs);
  }

  /** Silent on the rows, and silent again without the first `k`. */
  ghost predicate StaysSilent(a: AlertData, rows: seq<Row>, k: nat, extraFs: map<string, real>)
    requires a.min >= 2 && k <= |rows|
  {
    Outcome(a, rows, extraFs) == [] ==> Outcome(a, rows[k..], extraFs) == []
  }

  /** So for all values of the fields present, thresholds and stored flags. */
  ghost predicate AlwaysStaysSilent(a: AlertData, rows: seq<Row>, k: nat)
    requires a.min >= 2 && k <= |rows|
  {
    forall others: seq<Row>, extraFs, threshold, triggered ::
      SamePattern(rows, others) ==> StaysSilent(a.(threshold := threshold, triggered := triggered), others, k, extraFs)
  }

  lemma AloneStaysSilent(a: AlertData, rows: seq<Row>, k: nat, extraFs: map<string, real>)
    requires a.min >= 2 && Before(rows, k, a.time) && StandsAlone(a.name, a.time, rows, k)
    ensures StaysSilent(a, rows, k, extraFs)
  {
    SuffixTally(a, rows, k, |rows| - k, extraFs);
  }

  lemma TooFewStaySilent(a: AlertData, rows: seq<Row>, k: nat, extraFs: map<string, real>)
    requires a.min >= 2 && k <= |rows| && IsFresh(a) && !EnoughRows(a, rows[k..])
    ensures StaysSilent(a, rows, k, extraFs)
  {
    EnoughIsEnoughRows(a, rows[k..], extraFs);
  }
}
