/** When leaving out rows can make an alert go off (internal/alerts/alerts_system.go): exactly when a row in its
    window leans on them. */
module ThresholdWitness {
  import opened Options
  import opened ThresholdAlerts
  import opened ThresholdProperties
  import opened ThresholdLeaning

  // ----- rows that tell where a reading comes from

  function Filled<K>(m: map<K, real>, x: real): map<K, real> {
    map key | key in m :: x
  }

  function Painted(e: Encoded, x: nat): Encoded {
    var paint := (o: Option<real>) => if o.Some? then Some(x as real) else None;
    Encoded(paint(e.cpu), paint(e.mem), paint(e.disk), paint(e.netSent), paint(e.netRecv),
            Filled(e.gpu, x as real), Filled(e.temperatures, x as real),
            if e.load.Some? then Some((x as real, x as real, x as real)) else None,
            if e.battery.Some? then Some(x) else None)
  }

  const HIGH: nat := 1000

  function PaintedRow(row: Row, x: nat): Row {
    row.(stats := match row.stats case Some(e) => Some(Painted(e, x)) case None => None)
  }

  /** The same pattern, with high values before `k` and 0 from there on. */
  function Witness(rows: seq<Row>, k: nat): (r: seq<Row>)
    ensures SamePattern(rows, r)
  {
    seq(|rows|, i requires 0 <= i < |rows| => PaintedRow(rows[i], if i < k then HIGH else 0))
  }

  lemma WitnessEncodes(rows: seq<Row>, k: nat, i: nat, f: Field)
    requires i < |rows|
    ensures Has(Witness(rows, k)[i], f) == Has(rows[i], f)
    ensures Has(rows[i], f) ==> Encodes(Witness(rows, k)[i].stats.value, f) == if i < k then HIGH as real else 0.0
  {
  }

  /** A reading is unknown, 0, or high. */
  predicate Plain(x: Option<real>) {
    x == None || x == Some(0.0) || x == Some(HIGH as real)
  }

  lemma {:induction false} WitnessReads(rows: seq<Row>, k: nat, n: nat, f: Field)
    requires n <= |rows|
    ensures Plain(FieldOf(StatsAfter(Witness(rows, k), n), f))
    ensures n <= k && (exists j :: 0 <= j < n && Has(rows[j], f)) ==>
              FieldOf(StatsAfter(Witness(rows, k), n), f) == Some(HIGH as real)
  {
    if n > 0 {
      WitnessReads(rows, k, n - 1, f);
      FieldNext(Witness(rows, k), n, f);
      WitnessEncodes(rows, k, n - 1, f);
    }
  }

  /** A row that leans reads high. */
  lemma {:induction false} LeaningReadsHigh(rows: seq<Row>, k: nat, i: nat, f: Field)
    requires k <= i < |rows| && Leans(rows, k, i, f)
    ensures FieldOf(StatsAfter(Witness(rows, k), i + 1), f) == Some(HIGH as real)
  {
    hide FieldOf, Encodes, Has, Witness, StatsAfter;
    FieldNext(Witness(rows, k), i + 1, f);
    WitnessEncodes(rows, k, i, f);
    if i > k {
      assert Leans(rows, k, i - 1, f);
      LeaningReadsHigh(rows, k, i - 1, f);
    } else {
      WitnessReads(rows, k, k, f);
    }
  }

  lemma {:induction false} SuffixReadsZero(rows: seq<Row>, k: nat, n: nat, f: Field)
    requires k + n <= |rows|
    ensures FieldOf(StatsAfter(Witness(rows, k)[k..], n), f) == None || FieldOf(StatsAfter(Witness(rows, k)[k..], n), f) == Some(0.0)
  {
    if n > 0 {
      SuffixReadsZero(rows, k, n - 1, f);
      FieldNext(Witness(rows, k)[k..], n, f);
      WitnessEncodes(rows, k, k + n - 1, f);
    }
  }

  // ----- readings

  /** All fields that the alert reads are unknown, 0, or high. */
  ghost predicate PlainFor(name: Name, s: Stats) {
    forall f :: Uses(name, f) ==> Plain(FieldOf(s, f))
  }

  ghost predicate ZeroFor(name: Name, s: Stats) {
    forall f :: Uses(name, f) ==> FieldOf(s, f) == None || FieldOf(s, f) == Some(0.0)
  }

  predicate Scalar(name: Name) {
    !name.Disk? && !name.Temperature?
  }

  /** Instances for the fields that are not of a sensor or GPU. */
  lemma PlainFields(name: Name, s: Stats)
    requires PlainFor(name, s)
    ensures name.CPU? ==> Plain(Some(s.cpu))
    ensures name.Memory? ==> Plain(Some(s.mem))
    ensures name.Bandwidth? ==> Plain(Some(s.netSent)) && Plain(Some(s.netRecv))
    ensures name.Disk? ==> Plain(Some(s.disk))
    ensures name.LoadAvg1? ==> Plain(Some(s.load.0))
    ensures name.LoadAvg5? ==> Plain(Some(s.load.1))
    ensures name.LoadAvg15? ==> Plain(Some(s.load.2))
    ensures name.Battery? ==> Plain(Some(s.battery as real))
    ensures name.GPU? ==> forall key :: key in s.gpu ==> Plain(Some(s.gpu[key]))
    ensures name.Temperature? ==> forall key :: key in s.temperatures ==> Plain(Some(s.temperatures[key]))
  {
    assert Uses(name, CpuField) ==> Plain(FieldOf(s, CpuField));
    assert Uses(name, MemField) ==> Plain(FieldOf(s, MemField));
    assert Uses(name, SentField) ==> Plain(FieldOf(s, SentField));
    assert Uses(name, RecvField) ==> Plain(FieldOf(s, RecvField));
    assert Uses(name, DiskField) ==> Plain(FieldOf(s, DiskField));
    assert Uses(name, Load1Field) ==> Plain(FieldOf(s, Load1Field));
    assert Uses(name, Load5Field) ==> Plain(FieldOf(s, Load5Field));
    assert Uses(name, Load15Field) ==> Plain(FieldOf(s, Load15Field));
    assert Uses(name, BatteryField) ==> Plain(FieldOf(s, BatteryField));
    if name.GPU? {
      forall key | key in s.gpu ensures Plain(Some(s.gpu[key])) { assert Plain(FieldOf(s, GpuField(key))); }
    }
    if name.Temperature? {
      forall key | key in s.temperatures ensures Plain(Some(s.temperatures[key])) { assert Plain(FieldOf(s, SensorField(key))); }
    }
  }

  lemma PlainReading(name: Name, s: Stats)
    requires PlainFor(name, s) && Scalar(name)
    ensures Reading(name, s) >= 0.0
  {
    PlainFields(name, s);
  }

  lemma HighReading(name: Name, s: Stats, f: Field)
    requires PlainFor(name, s) && Scalar(name) && Uses(name, f) && FieldOf(s, f) == Some(HIGH as real)
    ensures Reading(name, s) >= HIGH as real
  {
    PlainFields(name, s);
    if name.GPU? {
      assert f.gpu in s.gpu && s.gpu[f.gpu] == HIGH as real;
    }
  }

  lemma ZeroReading(name: Name, s: Stats)
    requires ZeroFor(name, s) && Scalar(name)
    ensures Reading(name, s) == 0.0
  {
    assert Uses(name, CpuField) ==> FieldOf(s, CpuField) == Some(0.0);
    assert Uses(name, MemField) ==> FieldOf(s, MemField) == Some(0.0);
    assert Uses(name, SentField) ==> FieldOf(s, SentField) == Some(0.0);
    assert Uses(name, RecvField) ==> FieldOf(s, RecvField) == Some(0.0);
    assert Uses(name, Load1Field) ==> FieldOf(s, Load1Field) == Some(0.0);
    assert Uses(name, Load5Field) ==> FieldOf(s, Load5Field) == Some(0.0);
    assert Uses(name, Load15Field) ==> FieldOf(s, Load15Field) == Some(0.0);
    assert Uses(name, BatteryField) ==> FieldOf(s, BatteryField) == Some(0.0);
    if name.GPU? {
      forall key | key in s.gpu ensures s.gpu[key] == 0.0 { assert FieldOf(s, GpuField(key)) == Some(0.0); }
    }
  }

  /** Disks and temperatures are read in parts; there are no extra disks here. */
  function PartOf(name: Name, f: Field): string
    requires Uses(name, f) && !Scalar(name)
  {
    if f.SensorField? then f.sensor else "root"
  }

  lemma PlainPart(name: Name, s: Stats, key: string)
    requires PlainFor(name, s) && !Scalar(name)
    ensures PartReading(name, s, map[], key) >= 0.0
  {
    PlainFields(name, s);
  }

  lemma HighPart(name: Name, s: Stats, f: Field)
    requires PlainFor(name, s) && !Scalar(name) && Uses(name, f) && FieldOf(s, f) == Some(HIGH as real)
    ensures PartReading(name, s, map[], PartOf(name, f)) == HIGH as real
  {
  }

  lemma ZeroPart(name: Name, s: Stats, key: string)
    requires ZeroFor(name, s) && !Scalar(name)
    ensures PartReading(name, s, map[], key) == 0.0
  {
    assert Uses(name, DiskField) ==> FieldOf(s, DiskField) == Some(0.0);
    if name.Temperature? && key in s.temperatures {
      assert FieldOf(s, SensorField(key)) == Some(0.0);
    }
  }

  // ----- sums

  ghost predicate AllPlain(name: Name, rows: seq<Row>, n: nat)
    requires n <= |rows|
  {
    forall m: nat :: m <= n ==> PlainFor(name, StatsAfter(rows, m))
  }

  ghost predicate AllZero(name: Name, rows: seq<Row>, n: nat)
    requires n <= |rows|
  {
    forall m: nat :: m <= n ==> ZeroFor(name, StatsAfter(rows, m))
  }

  lemma {:induction false} SumIsHigh(name: Name, time: int, rows: seq<Row>, n: nat, i: nat, f: Field)
    requires n <= |rows| && AllPlain(name, rows, n) && Scalar(name)
    ensures WindowSum(name, time, rows, n) >= 0.0
    ensures i < n && InWindow(rows[i], time) && Uses(name, f) && FieldOf(StatsAfter(rows, i + 1), f) == Some(HIGH as real) ==>
              WindowSum(name, time, rows, n) >= HIGH as real
  {
    if n > 0 {
      SumIsHigh(name, time, rows, n - 1, i, f);
      assert PlainFor(name, StatsAfter(rows, n));
      PlainReading(name, StatsAfter(rows, n));
      if i == n - 1 && Uses(name, f) && FieldOf(StatsAfter(rows, n), f) == Some(HIGH as real) {
        HighReading(name, StatsAfter(rows, n), f);
      }
    }
  }

  lemma {:induction false} SumIsZero(name: Name, time: int, rows: seq<Row>, n: nat)
    requires n <= |rows| && AllZero(name, rows, n) && Scalar(name)
    ensures WindowSum(name, time, rows, n) == 0.0
  {
    if n > 0 {
      SumIsZero(name, time, rows, n - 1);
      assert ZeroFor(name, StatsAfter(rows, n));
      ZeroReading(name, StatsAfter(rows, n));
    }
  }

  lemma {:induction false} PartIsHigh(name: Name, time: int, rows: seq<Row>, n: nat, i: nat, f: Field)
    requires n <= |rows| && AllPlain(name, rows, n) && !Scalar(name) && Uses(name, f)
    ensures PartSum(name, time, rows, n, map[], PartOf(name, f)) >= 0.0
    ensures i < n && InWindow(rows[i], time) && FieldOf(StatsAfter(rows, i + 1), f) == Some(HIGH as real) ==>
              PartSum(name, time, rows, n, map[], PartOf(name, f)) >= HIGH as real
  {
    if n > 0 {
      PartIsHigh(name, time, rows, n - 1, i, f);
      assert PlainFor(name, StatsAfter(rows, n));
      PlainPart(name, StatsAfter(rows, n), PartOf(name, f));
      if i == n - 1 && FieldOf(StatsAfter(rows, n), f) == Some(HIGH as real) {
        HighPart(name, StatsAfter(rows, n), f);
      }
    }
  }

  lemma {:induction false} PartIsZero(name: Name, time: int, rows: seq<Row>, n: nat, key: string)
    requires n <= |rows| && AllZero(name, rows, n) && !Scalar(name)
    ensures PartSum(name, time, rows, n, map[], key) == 0.0
  {
    if n > 0 {
      PartIsZero(name, time, rows, n - 1, key);
      assert ZeroFor(name, StatsAfter(rows, n));
      ZeroPart(name, StatsAfter(rows, n), key);
    }
  }

  /** What is divided by the count. */
  ghost function Numerator(a: AlertData): real {
    if Scalar(a.name) then a.val else MaxFrom(0.0, a.mapSums)
  }

  lemma NumeratorIsHigh(a: AlertData, rows: seq<Row>, i: nat, f: Field)
    requires IsFresh(a) && AllPlain(a.name, rows, |rows|)
    requires i < |rows| && InWindow(rows[i], a.time) && Uses(a.name, f) && FieldOf(StatsAfter(rows, i + 1), f) == Some(HIGH as real)
    ensures Numerator(Tally(a, rows, |rows|, map[])) >= HIGH as real
  {
    TallyKeeps(a, rows, |rows|, map[]);
    if Scalar(a.name) {
      TallySums(a, rows, |rows|, map[]);
      SumIsHigh(a.name, a.time, rows, |rows|, i, f);
    } else {
      TallyParts(a, rows, |rows|, map[], PartOf(a.name, f));
      PartIsHigh(a.name, a.time, rows, |rows|, i, f);
    }
  }

  lemma NumeratorIsZero(a: AlertData, rows: seq<Row>)
    requires IsFresh(a) && AllZero(a.name, rows, |rows|)
    ensures Numerator(Tally(a, rows, |rows|, map[])) == 0.0
  {
    TallyKeeps(a, rows, |rows|, map[]);
    if Scalar(a.name) {
      TallySums(a, rows, |rows|, map[]);
      SumIsZero(a.name, a.time, rows, |rows|);
    } else {
      var sums := Tally(a, rows, |rows|, map[]).mapSums;
      forall key | key in sums ensures sums[key] == 0.0 {
        TallyParts(a, rows, |rows|, map[], key);
        PartIsZero(a.name, a.time, rows, |rows|, key);
      }
    }
  }

  // ----- the theorem

  /** A threshold between the high and the zero average, and the flag that fits the high one. */
  function Poised(a: AlertData): AlertData {
    if IsLowAlert(a.name) then a.(threshold := 2.0, triggered := false) else a.(threshold := 1.0, triggered := true)
  }

  lemma HighAverage(x: real, count: nat)
    requires x >= HIGH as real && 0 < count < 256
    ensures x / count as real > 2.0
  {
    DivideKeepsOrder(x, 2.0 * count as real, count as real);
  }

  lemma PoisedIsSilentWhenHigh(t: AlertData)
    requires t.min >= 2 && Numerator(t) >= HIGH as real && Poised(t) == t
    ensures Verdict(t) == []
  {
    if Enough(t) {
      HighAverage(Numerator(t), t.count);
      assert Average(t) == Numerator(t) / t.count as real;
    }
  }

  lemma PoisedGoesOffAtZero(t: AlertData)
    requires t.min >= 2 && Enough(t) && Numerator(t) == 0.0 && Poised(t) == t
    ensures Verdict(t) != []
  {
    assert Average(t) == 0.0 / t.count as real == 0.0;
  }

  lemma WitnessIsPlain(name: Name, rows: seq<Row>, k: nat)
    requires k <= |rows|
    ensures AllPlain(name, Witness(rows, k), |rows|)
    ensures AllZero(name, Witness(rows, k)[k..], |rows| - k)
  {
    forall m: nat, f | m <= |rows| && Uses(name, f) ensures Plain(FieldOf(StatsAfter(Witness(rows, k), m), f)) {
      WitnessReads(rows, k, m, f);
    }
    forall m: nat, f | m <= |rows| - k && Uses(name, f)
      ensures FieldOf(StatsAfter(Witness(rows, k)[k..], m), f) == None || FieldOf(StatsAfter(Witness(rows, k)[k..], m), f) == Some(0.0)
    {
      SuffixReadsZero(rows, k, m, f);
    }
  }

  /** If a row in the window leans on the first `k`, and enough rows are left, there are values with which the
      alert goes off without them. */
  lemma LeaningGoesOff(a: AlertData, rows: seq<Row>, k: nat, i: nat, f: Field)
    requires IsFresh(a) && a.min >= 2 && k <= i < |rows| && InWindow(rows[i], a.time) && Uses(a.name, f) && Leans(rows, k, i, f)
    requires EnoughRows(a, rows[k..])
    ensures !StaysSilent(Poised(a), Witness(rows, k), k, map[])
  {
    var b := Poised(a);
    var others := Witness(rows, k);
    var rest := others[k..];
    WitnessIsPlain(a.name, rows, k);
    LeaningReadsHigh(rows, k, i, f);
    NumeratorIsHigh(b, others, i, f);
    NumeratorIsZero(b, rest);
    TallyKeeps(b, others, |others|, map[]);
    TallyKeeps(b, rest, |rest|, map[]);
    assert SamePattern(rows[k..], rest);
    PatternCount(a.name, a.time, rows[k..], rest, |rest|);
    EnoughIsEnoughRows(b, rest, map[]);
    PoisedIsSilentWhenHigh(Tally(b, others, |others|, map[]));
    PoisedGoesOffAtZero(Tally(b, rest, |rest|, map[]));
  }

  /** For a pattern of present fields, an alert that is silent on the rows stays silent without the first `k`,
      which are before its window, for all values, thresholds and stored flags, if and only if no row in its
      window leans on one of them, or too few rows are left for any verdict. */
  lemma StaysSilentExactly(a: AlertData, rows: seq<Row>, k: nat)
    requires IsFresh(a) && a.min >= 2 && Before(rows, k, a.time)
    ensures AlwaysStaysSilent(a, rows, k) <==> StandsAlone(a.name, a.time, rows, k) || !EnoughRows(a, rows[k..])
  {
    if StandsAlone(a.name, a.time, rows, k) || !EnoughRows(a, rows[k..]) {
      forall others: seq<Row>, extraFs, threshold, triggered | SamePattern(rows, others)
        ensures StaysSilent(a.(threshold := threshold, triggered := triggered), others, k, extraFs)
      {
        var b := a.(threshold := threshold, triggered := triggered);
        PatternSilent(a, b, rows, others, k, extraFs);
      }
    } else {
      var i: nat, f :| k <= i < |rows| && InWindow(rows[i], a.time) && Uses(a.name, f) && Leans(rows, k, i, f);
      LeaningGoesOff(a, rows, k, i, f);
      assert Poised(a) == a.(threshold := Poised(a).threshold, triggered := Poised(a).triggered);
      assert SamePattern(rows, Witness(rows, k));
    }
  }

  lemma PatternSilent(a: AlertData, b: AlertData, rows: seq<Row>, others: seq<Row>, k: nat, extraFs: map<string, real>)
    requires IsFresh(a) && a.min >= 2 && Before(rows, k, a.time) && SamePattern(rows, others)
    requires b == a.(threshold := b.threshold, triggered := b.triggered)
    requires StandsAlone(a.name, a.time, rows, k) || !EnoughRows(a, rows[k..])
    ensures StaysSilent(b, others, k, extraFs)
  {
    if StandsAlone(a.name, a.time, rows, k) {
      PatternStandsAlone(a.name, a.time, rows, others, k);
      forall h: nat | h < k ensures !InWindow(others[h], a.time) { assert SameRow(rows[h], others[h]); }
      AloneStaysSilent(b, others, k, extraFs);
    } else {
      assert SamePattern(rows[k..], others[k..]);
      PatternCount(a.name, a.time, rows[k..], others[k..], |rows| - k);
      TooFewStaySilent(b, others, k, extraFs);
    }
  }
}
