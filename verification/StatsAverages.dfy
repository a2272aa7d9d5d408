/** Averaging system statistics records (internal/records/records.go, AverageSystemStats).

    Values kept to two decimals are counted in hundredths; byte counters are uint64. A `Gauge` pairs
    a reading with the peak field stored next to it. */
module StatsAverages {
  import opened Options

  const U64: nat := 0x1_0000_0000_0000_0000

  datatype Gauge = Gauge(value: nat, peak: nat)

  datatype Fs = Fs(read: Gauge, write: Gauge, readBytes: Gauge, writeBytes: Gauge)

  /** Rates are averaged; the totals are running counters of which the largest is kept. */
  datatype Nic = Nic(up: nat, down: nat, totalUp: nat, totalDown: nat)

  datatype Stats = Stats(
    cpu: Gauge, memUsed: Gauge, netSent: Gauge, netRecv: Gauge, diskRead: Gauge, diskWrite: Gauge,
    bandwidthSent: Gauge, bandwidthRecv: Gauge, ioRead: Gauge, ioWrite: Gauge,
    battery: nat, batteryState: nat, cores: seq<nat>, nics: map<string, Nic>, fs: map<string, Fs>)

  const ZERO: Gauge := Gauge(0, 0)
  const NO_FS: Fs := Fs(ZERO, ZERO, ZERO, ZERO)
  const NO_NIC: Nic := Nic(0, 0, 0, 0)
  const NO_STATS: Stats := Stats(ZERO, ZERO, ZERO, ZERO, ZERO, ZERO, ZERO, ZERO, ZERO, ZERO, 0, 0, [], map[], map[])

  function Max(a: nat, b: nat): nat {
    if a < b then b else a
  }

  /** Sum of readings and largest of readings and peaks. */
  function AddHundredths(sum: Gauge, g: Gauge): Gauge {
    Gauge(sum.value + g.value, Max(Max(sum.peak, g.peak), g.value))
  }

  function AddBytes(sum: Gauge, g: Gauge): Gauge {
    Gauge((sum.value + g.value) % U64, Max(Max(sum.peak, g.peak), g.value))
  }

  function AddFs(sum: Fs, f: Fs): Fs {
    Fs(AddHundredths(sum.read, f.read), AddHundredths(sum.write, f.write),
       AddBytes(sum.readBytes, f.readBytes), AddBytes(sum.writeBytes, f.writeBytes))
  }

  function AddNic(sum: Nic, n: Nic): Nic {
    Nic((sum.up + n.up) % U64, (sum.down + n.down) % U64, Max(sum.totalUp, n.totalUp), Max(sum.totalDown, n.totalDown))
  }

  function FsOf(fs: map<string, Fs>, key: string): Fs {
    if key in fs then fs[key] else NO_FS
  }

  function NicOf(nics: map<string, Nic>, key: string): Nic {
    if key in nics then nics[key] else NO_NIC
  }

  function CoreOf(cores: seq<nat>, i: nat): nat {
    if i < |cores| then cores[i] else 0
  }

  function AddCores(sums: seq<nat>, cores: seq<nat>): (r: seq<nat>)
    ensures |r| == Max(|sums|, |cores|)
  {
    seq(Max(|sums|, |cores|), i requires 0 <= i => CoreOf(sums, i) + CoreOf(cores, i))
  }

  /** One record added to the totals. `battery` and `cores` hold plain sums until they are divided. */
  function Add(t: Stats, s: Stats): Stats {
    Stats(AddHundredths(t.cpu, s.cpu), AddHundredths(t.memUsed, s.memUsed),
          AddHundredths(t.netSent, s.netSent), AddHundredths(t.netRecv, s.netRecv),
          AddHundredths(t.diskRead, s.diskRead), AddHundredths(t.diskWrite, s.diskWrite),
          AddBytes(t.bandwidthSent, s.bandwidthSent), AddBytes(t.bandwidthRecv, s.bandwidthRecv),
          AddBytes(t.ioRead, s.ioRead), AddBytes(t.ioWrite, s.ioWrite),
          t.battery + s.battery, s.batteryState, AddCores(t.cores, s.cores),
          map key | key in t.nics.Keys + s.nics.Keys :: if key in s.nics then AddNic(NicOf(t.nics, key), s.nics[key]) else t.nics[key],
          map key | key in t.fs.Keys + s.fs.Keys :: if key in s.fs then AddFs(FsOf(t.fs, key), s.fs[key]) else t.fs[key])
  }

  /** The totals over the records that decode (None does not). */
  function Total(records: seq<Option<Stats>>): Stats {
    var n := |records| - 1;
    if records == [] then NO_STATS
    else if records[n] == None then Total(records[..n])
    else Add(Total(records[..n]), records[n].value)
  }

  /** `twoDecimals(sum / count)` in hundredths: halves are rounded up. */
  function RoundDiv(sum: nat, count: nat): nat
    requires count > 0
  {
    (2 * sum + count) / (2 * count)
  }

  /** Integer division, as on byte counters. */
  function DivDown(sum: nat, count: nat): nat
    requires count > 0
  {
    sum / count
  }

  /** Go's conversion to uint8. */
  function Uint8(n: nat): nat {
    n % 256
  }

  function DivHundredths(g: Gauge, count: nat): Gauge
    requires count > 0
  {
    Gauge(RoundDiv(g.value, count), g.peak)
  }

  function DivBytes(g: Gauge, count: nat): Gauge
    requires count > 0
  {
    Gauge(DivDown(g.value, count), g.peak)
  }

  function DivFs(f: Fs, count: nat): Fs
    requires count > 0
  {
    Fs(DivHundredths(f.read, count), DivHundredths(f.write, count), DivBytes(f.readBytes, count), DivBytes(f.writeBytes, count))
  }

  function DivNic(n: Nic, count: nat): Nic
    requires count > 0
  {
    Nic(DivDown(n.up, count), DivDown(n.down, count), n.totalUp, n.totalDown)
  }

  function Divide(t: Stats, count: nat): Stats
    requires count > 0
  {
    Stats(DivHundredths(t.cpu, count), DivHundredths(t.memUsed, count),
          DivHundredths(t.netSent, count), DivHundredths(t.netRecv, count),
          DivHundredths(t.diskRead, count), DivHundredths(t.diskWrite, count),
          DivBytes(t.bandwidthSent, count), DivBytes(t.bandwidthRecv, count),
          DivBytes(t.ioRead, count), DivBytes(t.ioWrite, count),
          Uint8(DivDown(t.battery, count)), t.batteryState,
          seq(|t.cores|, i requires 0 <= i < |t.cores| => Uint8(RoundDiv(t.cores[i], count))),
          map key | key in t.nics :: DivNic(t.nics[key], count),
          map key | key in t.fs :: DivFs(t.fs[key], count))
  }

  /** What `AverageSystemStats` returns. Records that do not decode still count in the divisor. */
  function Average(records: seq<Option<Stats>>): Stats {
    if records == [] then NO_STATS else Divide(Total(records), |records|)
  }

  /** `AverageSystemStats`, accumulating and then dividing in place. */
  method AverageSystemStats(records: seq<Option<Stats>>) returns (sum: Stats)
    ensures sum == Average(records)
  {
    sum := NO_STATS;
    for i := 0 to |records|
      invariant sum == Total(records[..i])
    {
      assert records[..i + 1][..i] == records[..i];
      if records[i] == None {
        continue;
      }
      var stats := records[i].value;
      ghost var before := sum;
      sum := sum.(cpu := AddHundredths(sum.cpu, stats.cpu), memUsed := AddHundredths(sum.memUsed, stats.memUsed));
      sum := sum.(netSent := AddHundredths(sum.netSent, stats.netSent), netRecv := AddHundredths(sum.netRecv, stats.netRecv));
      sum := sum.(diskRead := AddHundredths(sum.diskRead, stats.diskRead), diskWrite := AddHundredths(sum.diskWrite, stats.diskWrite));
      sum := sum.(bandwidthSent := AddBytes(sum.bandwidthSent, stats.bandwidthSent),
                  bandwidthRecv := AddBytes(sum.bandwidthRecv, stats.bandwidthRecv));
      sum := sum.(ioRead := AddBytes(sum.ioRead, stats.ioRead), ioWrite := AddBytes(sum.ioWrite, stats.ioWrite));
      sum := sum.(battery := sum.battery + stats.battery, batteryState := stats.batteryState);
      var cores := AccumulateCores(sum.cores, stats.cores);
      var nics := AccumulateNics(sum.nics, stats.nics);
      var fs := AccumulateFs(sum.fs, stats.fs);
      sum := sum.(cores := cores, nics := nics, fs := fs);
      assert sum.nics == Add(before, stats).nics;
      assert sum.fs == Add(before, stats).fs;
    }
    assert records[..|records|] == records;
    if |records| > 0 {
      sum := Divide(sum, |records|);
    }
  }

  method AccumulateCores(sums: seq<nat>, cores: seq<nat>) returns (r: seq<nat>)
    ensures r == AddCores(sums, cores)
  {
    r := sums;
    if |r| < |cores| {
      r := r + seq(|cores| - |r|, i => 0);
    }
    for i := 0 to |cores|
      invariant |r| == Max(|sums|, |cores|)
      invariant forall j :: 0 <= j < |r| ==> r[j] == CoreOf(sums, j) + if j < i then cores[j] else 0
    {
      r := r[i := r[i] + cores[i]];
    }
  }

  method AccumulateNics(sums: map<string, Nic>, nics: map<string, Nic>) returns (r: map<string, Nic>)
    ensures r == map key | key in sums.Keys + nics.Keys :: if key in nics then AddNic(NicOf(sums, key), nics[key]) else sums[key]
  {
    r := sums;
    var todo := nics.Keys;
    while todo != {}
      invariant todo <= nics.Keys
      invariant r.Keys == sums.Keys + (nics.Keys - todo)
      invariant forall key :: key in r ==>
                  r[key] == if key in nics && key !in todo then AddNic(NicOf(sums, key), nics[key]) else sums[key]
      decreases todo
    {
      var key :| key in todo;
      r := r[key := AddNic(NicOf(r, key), nics[key])];
      todo := todo - {key};
    }
  }

  method AccumulateFs(sums: map<string, Fs>, fs: map<string, Fs>) returns (r: map<string, Fs>)
    ensures r == map key | key in sums.Keys + fs.Keys :: if key in fs then AddFs(FsOf(sums, key), fs[key]) else sums[key]
  {
    r := sums;
    var todo := fs.Keys;
    while todo != {}
      invariant todo <= fs.Keys
      invariant r.Keys == sums.Keys + (fs.Keys - todo)
      invariant forall key :: key in r ==>
                  r[key] == if key in fs && key !in todo then AddFs(FsOf(sums, key), fs[key]) else sums[key]
      decreases todo
    {
      var key :| key in todo;
      if key !in r {
        r := r[key := NO_FS];
      }
      r := r[key := AddFs(r[key], fs[key])];
      todo := todo - {key};
    }
  }

  // ----- every field on its own

  /** The readings that have a peak. A NIC's running totals have only a peak. */
  datatype Channel = Cpu | MemUsed | NetSent | NetRecv | DiskRead | DiskWrite
                   | BandwidthSent | BandwidthRecv | IoRead | IoWrite
                   | FsRead(key: string) | FsWrite(key: string) | FsReadBytes(key: string) | FsWriteBytes(key: string)
                   | NicTotalUp(key: string) | NicTotalDown(key: string)

  predicate InBytes(c: Channel) {
    c.BandwidthSent? || c.BandwidthRecv? || c.IoRead? || c.IoWrite? || c.FsReadBytes? || c.FsWriteBytes?
  }

  function Read(s: Stats, c: Channel): Gauge {
    match c
    case Cpu => s.cpu
    case MemUsed => s.memUsed
    case NetSent => s.netSent
    case NetRecv => s.netRecv
    case DiskRead => s.diskRead
    case DiskWrite => s.diskWrite
    case BandwidthSent => s.bandwidthSent
    case BandwidthRecv => s.bandwidthRecv
    case IoRead => s.ioRead
    case IoWrite => s.ioWrite
    case FsRead(key) => FsOf(s.fs, key).read
    case FsWrite(key) => FsOf(s.fs, key).write
    case FsReadBytes(key) => FsOf(s.fs, key).readBytes
    case FsWriteBytes(key) => FsOf(s.fs, key).writeBytes
    case NicTotalUp(key) => Gauge(0, NicOf(s.nics, key).totalUp)
    case NicTotalDown(key) => Gauge(0, NicOf(s.nics, key).totalDown)
  }

  function SumOf(records: seq<Option<Stats>>, c: Channel): nat {
    var n := |records| - 1;
    if records == [] then 0
    else SumOf(records[..n], c) + if records[n].Some? then Read(records[n].value, c).value else 0
  }

  /** `peak` is an upper bound of all readings and peaks of the channel, and is one of them (or zero). */
  ghost predicate IsPeak(records: seq<Option<Stats>>, c: Channel, peak: nat) {
    && (forall i :: 0 <= i < |records| && records[i].Some? ==>
          Read(records[i].value, c).value <= peak && Read(records[i].value, c).peak <= peak)
    && (peak == 0 || exists i :: 0 <= i < |records| && Shows(records[i], c, peak))
  }

  lemma PeakIsUnique(records: seq<Option<Stats>>, c: Channel, p: nat, q: nat)
    requires IsPeak(records, c, p) && IsPeak(records, c, q)
    ensures p == q
  {
  }

  lemma AddPeak(t: Stats, s: Stats, c: Channel)
    ensures Read(Add(t, s), c).peak == Max(Max(Read(t, c).peak, Read(s, c).peak), Read(s, c).value)
  {
  }

  function Wrap(n: nat): nat {
    n % U64
  }

  lemma AddValue(t: Stats, s: Stats, c: Channel)
    ensures InBytes(c) ==> Read(Add(t, s), c).value == Wrap(Read(t, c).value + Read(s, c).value)
                           || (Read(s, c).value == 0 && Read(Add(t, s), c).value == Read(t, c).value)
    ensures !InBytes(c) ==> Read(Add(t, s), c).value == Read(t, c).value + Read(s, c).value
  {
    hide Max;
  }

  predicate Shows(record: Option<Stats>, c: Channel, peak: nat) {
    record.Some? && (Read(record.value, c).value == peak || Read(record.value, c).peak == peak)
  }

  lemma PeakStep(records: seq<Option<Stats>>, c: Channel, peak: nat, next: nat)
    requires records != [] && IsPeak(records[..|records| - 1], c, peak)
    requires var r := records[|records| - 1];
             next == if r == None then peak else Max(Max(peak, Read(r.value, c).peak), Read(r.value, c).value)
    ensures IsPeak(records, c, next)
  {
    var n := |records| - 1;
    assert forall i :: 0 <= i < n ==> records[i] == records[..n][i];
    if peak != 0 && next == peak {
      var i :| 0 <= i < n && Shows(records[..n][i], c, peak);
      assert Shows(records[i], c, peak);
    } else if next != 0 {
      assert Shows(records[n], c, next);
    }
  }

  lemma {:induction false} TotalPeak(records: seq<Option<Stats>>, c: Channel)
    ensures IsPeak(records, c, Read(Total(records), c).peak)
  {
    if records != [] {
      var n := |records| - 1;
      TotalPeak(records[..n], c);
      if records[n].Some? {
        AddPeak(Total(records[..n]), records[n].value, c);
      }
      PeakStep(records, c, Read(Total(records[..n]), c).peak, Read(Total(records), c).peak);
    }
  }

  lemma AddWrapped(a: nat, b: nat)
    ensures (a % U64 + b) % U64 == (a + b) % U64
  {
  }

  /** A wrapped sum stays the sum modulo 2^64. */
  lemma SumWraps(sum: nat, next: nat)
    ensures Wrap(Wrap(sum) + next) == Wrap(sum + next)
  {
    AddWrapped(sum, next);
  }

  lemma {:induction false} PlainSum(records: seq<Option<Stats>>, c: Channel)
    requires !InBytes(c)
    ensures Read(Total(records), c).value == SumOf(records, c)
  {
    if records != [] {
      var n := |records| - 1;
      PlainSum(records[..n], c);
      hide Add, Read, InBytes;
      if records[n].Some? { AddValue(Total(records[..n]), records[n].value, c); }
    }
  }

  lemma {:induction false} WrappedSum(records: seq<Option<Stats>>, c: Channel)
    requires InBytes(c)
    ensures Read(Total(records), c).value == Wrap(SumOf(records, c))
  {
    if records != [] {
      var n := |records| - 1;
      WrappedSum(records[..n], c);
      hide Add, Read, InBytes, Wrap;
      if records[n].Some? {
        AddValue(Total(records[..n]), records[n].value, c);
        SumWraps(SumOf(records[..n], c), Read(records[n].value, c).value);
      }
    }
  }

  lemma TotalSum(records: seq<Option<Stats>>, c: Channel)
    ensures !InBytes(c) ==> Read(Total(records), c).value == SumOf(records, c)
    ensures InBytes(c) ==> Read(Total(records), c).value == SumOf(records, c) % U64
  {
    if InBytes(c) { WrappedSum(records, c); } else { PlainSum(records, c); }
  }

  lemma DivideChannel(t: Stats, count: nat, c: Channel)
    requires count > 0
    ensures Read(Divide(t, count), c).peak == Read(t, c).peak
    ensures Read(Divide(t, count), c).value == if InBytes(c) then DivDown(Read(t, c).value, count) else RoundDiv(Read(t, c).value, count)
  {
  }

  /** Every channel of the average: the peak is the largest reading or peak of the records, and the
      value the mean reading, rounded to hundredths or, for byte counters, down (after the sum
      wrapped at 2^64). */
  lemma AverageChannel(records: seq<Option<Stats>>, c: Channel)
    requires records != []
    ensures var avg := Read(Average(records), c);
            && IsPeak(records, c, avg.peak)
            && avg.value == if InBytes(c) then DivDown(SumOf(records, c) % U64, |records|) else RoundDiv(SumOf(records, c), |records|)
  {
    TotalPeak(records, c);
    TotalSum(records, c);
    DivideChannel(Total(records), |records|, c);
  }

  // ----- averages never exceed peaks

  lemma {:induction false} SumWithinPeak(records: seq<Option<Stats>>, c: Channel, peak: nat)
    requires IsPeak(records, c, peak)
    ensures SumOf(records, c) <= |records| * peak
  {
    if records != [] {
      var n := |records| - 1;
      assert forall i :: 0 <= i < n ==> records[i] == records[..n][i];
      SumWithinBound(records, c, peak);
    }
  }

  lemma {:induction false} SumWithinBound(records: seq<Option<Stats>>, c: Channel, bound: nat)
    requires forall i :: 0 <= i < |records| && records[i].Some? ==> Read(records[i].value, c).value <= bound
    ensures SumOf(records, c) <= |records| * bound
  {
    if records != [] {
      var n := |records| - 1;
      assert forall i :: 0 <= i < n ==> records[i] == records[..n][i];
      SumWithinBound(records[..n], c, bound);
      assert |records| * bound == n * bound + bound;
    }
  }

  lemma MulMonotone(a: nat, b: nat, c: nat)
    requires b <= c
    ensures a * b <= a * c
  {
  }

  lemma QuotientWithin(a: nat, b: nat, bound: nat)
    requires b > 0 && a < b * (bound + 1)
    ensures a / b <= bound
  {
    if a / b >= bound + 1 {
      MulMonotone(b, bound + 1, a / b);
    }
  }

  lemma MeanWithinBound(sum: nat, count: nat, bound: nat)
    requires count > 0 && sum <= count * bound
    ensures DivDown(sum, count) <= bound && RoundDiv(sum, count) <= bound
  {
    assert count * (bound + 1) == count * bound + count;
    QuotientWithin(sum, count, bound);
    assert 2 * count * (bound + 1) == 2 * (count * bound) + 2 * count;
    QuotientWithin(2 * sum + count, 2 * count, bound);
  }

  /** A rounded or floored average never exceeds its own peak. */
  lemma AverageWithinPeak(records: seq<Option<Stats>>, c: Channel)
    requires records != []
    ensures Read(Average(records), c).value <= Read(Average(records), c).peak
  {
    AverageChannel(records, c);
    var peak := Read(Average(records), c).peak;
    var sum := SumOf(records, c);
    SumWithinPeak(records, c, peak);
    MeanWithinBound(sum, |records|, peak);
    MeanWithinBound(sum % U64, |records|, peak);
  }

  // ----- averages of averages

  function Flatten(groups: seq<seq<Option<Stats>>>): seq<Option<Stats>> {
    var n := |groups| - 1;
    if groups == [] then [] else Flatten(groups[..n]) + groups[n]
  }

  function Averages(groups: seq<seq<Option<Stats>>>): (r: seq<Option<Stats>>)
    ensures |r| == |groups|
  {
    seq(|groups|, i requires 0 <= i < |groups| => Some(Average(groups[i])))
  }

  lemma {:induction false} FlattenMembers(groups: seq<seq<Option<Stats>>>)
    ensures forall i, j :: 0 <= i < |groups| && 0 <= j < |groups[i]| ==> groups[i][j] in Flatten(groups)
    ensures forall r :: r in Flatten(groups) ==> exists i :: 0 <= i < |groups| && r in groups[i]
  {
    if groups != [] {
      var n := |groups| - 1;
      FlattenMembers(groups[..n]);
      forall r | r in Flatten(groups) ensures exists i :: 0 <= i < |groups| && r in groups[i] {
        if r !in groups[n] {
          assert r in Flatten(groups[..n]);
          var i :| 0 <= i < n && r in groups[..n][i];
          assert r in groups[i];
        }
      }
      forall i, j | 0 <= i < |groups| && 0 <= j < |groups[i]| ensures groups[i][j] in Flatten(groups) {
        if i < n {
          assert groups[..n][i] == groups[i];
        }
      }
    }
  }

  lemma ShownWithinPeak(part: seq<Option<Stats>>, c: Channel, q: nat, r: Option<Stats>, p: nat)
    requires IsPeak(part, c, q) && r in part && Shows(r, c, p)
    ensures p <= q
  {
  }

  lemma GroupWithinFlat(groups: seq<seq<Option<Stats>>>, i: nat, c: Channel, q: nat, p: nat)
    requires i < |groups| && IsPeak(groups[i], c, q) && IsPeak(Flatten(groups), c, p)
    ensures q <= p
  {
    FlattenMembers(groups);
    forall j | 0 <= j < |groups[i]| ensures groups[i][j] in Flatten(groups) {}
    PeakOfPart(groups[i], Flatten(groups), c, q, p);
  }

  lemma FlatPeakInGroup(groups: seq<seq<Option<Stats>>>, c: Channel, p: nat) returns (i: nat)
    requires IsPeak(Flatten(groups), c, p) && p != 0
    ensures i < |groups| && exists r :: r in groups[i] && Shows(r, c, p)
  {
    FlattenMembers(groups);
    var k :| 0 <= k < |Flatten(groups)| && Shows(Flatten(groups)[k], c, p);
    var r := Flatten(groups)[k];
    assert r in Flatten(groups);
    i :| 0 <= i < |groups| && r in groups[i];
  }

  /** Records `twice` that stand for groups, each with its group's peak, have the flat peak. */
  lemma GroupedPeak(groups: seq<seq<Option<Stats>>>, twice: seq<Option<Stats>>, c: Channel, peaks: seq<nat>, p: nat)
    requires |twice| == |peaks| == |groups|
    requires forall i :: 0 <= i < |groups| ==> IsPeak(groups[i], c, peaks[i])
    requires forall i :: 0 <= i < |groups| ==> twice[i].Some? && Read(twice[i].value, c).peak == peaks[i]
                                               && Read(twice[i].value, c).value <= peaks[i]
    requires IsPeak(Flatten(groups), c, p)
    ensures IsPeak(twice, c, p)
  {
    forall i | 0 <= i < |groups| ensures peaks[i] <= p {
      GroupWithinFlat(groups, i, c, peaks[i], p);
    }
    if p != 0 {
      var i := FlatPeakInGroup(groups, c, p);
      var r :| r in groups[i] && Shows(r, c, p);
      ShownWithinPeak(groups[i], c, peaks[i], r, p);
      assert Shows(twice[i], c, p);
    }
  }

  lemma AverageGauge(records: seq<Option<Stats>>, c: Channel)
    requires records != []
    ensures IsPeak(records, c, Read(Average(records), c).peak)
    ensures Read(Average(records), c).value <= Read(Average(records), c).peak
  {
    AverageChannel(records, c);
    AverageWithinPeak(records, c);
  }

  lemma AveragesPeak(groups: seq<seq<Option<Stats>>>, c: Channel, p: nat)
    requires forall i :: 0 <= i < |groups| ==> groups[i] != []
    requires IsPeak(Flatten(groups), c, p)
    ensures IsPeak(Averages(groups), c, p)
  {
    hide Read, Average, IsPeak, Flatten;
    forall i | 0 <= i < |groups|
      ensures IsPeak(groups[i], c, Read(Average(groups[i]), c).peak)
      ensures Read(Average(groups[i]), c).value <= Read(Average(groups[i]), c).peak
    {
      AverageGauge(groups[i], c);
    }
    var peaks := seq(|groups|, i requires 0 <= i < |groups| => Read(Average(groups[i]), c).peak);
    GroupedPeak(groups, Averages(groups), c, peaks, p);
  }

  /** Rolling up in two stages gives the peaks of one flat pass over all base records, for every peak
      field, however the records are grouped. */
  lemma HierarchicalPeaks(groups: seq<seq<Option<Stats>>>, c: Channel)
    requires groups != [] && forall i :: 0 <= i < |groups| ==> groups[i] != []
    ensures Read(Average(Averages(groups)), c).peak == Read(Average(Flatten(groups)), c).peak
  {
    FlattenMembers(groups);
    assert groups[0][0] in Flatten(groups);
    AverageGauge(Flatten(groups), c);
    AverageGauge(Averages(groups), c);
    var p := Read(Average(Flatten(groups)), c).peak;
    AveragesPeak(groups, c, p);
    PeakIsUnique(Averages(groups), c, p, Read(Average(Averages(groups)), c).peak);
  }

  lemma PeakOfPart(part: seq<Option<Stats>>, whole: seq<Option<Stats>>, c: Channel, p: nat, q: nat)
    requires IsPeak(part, c, p) && IsPeak(whole, c, q)
    requires forall j :: 0 <= j < |part| ==> part[j] in whole
    ensures p <= q
  {
    if p != 0 {
      var j :| 0 <= j < |part| && Shows(part[j], c, p);
      assert part[j] in whole;
    }
  }

  // ----- the uint8 results

  predicate IsUint8(s: Stats) {
    s.battery < 256 && forall i :: 0 <= i < |s.cores| ==> s.cores[i] < 256
  }

  lemma {:induction false} TotalUint8(records: seq<Option<Stats>>, i: nat)
    requires forall k :: 0 <= k < |records| && records[k].Some? ==> IsUint8(records[k].value)
    ensures Total(records).battery <= |records| * 255
    ensures CoreOf(Total(records).cores, i) <= |records| * 255
  {
    if records != [] {
      var n := |records| - 1;
      assert forall k :: 0 <= k < n ==> records[k] == records[..n][k];
      TotalUint8(records[..n], i);
      if records[n].Some? {
        assert CoreOf(records[n].value.cores, i) <= 255;
      }
    }
  }

  lemma CoreMean(records: seq<Option<Stats>>, i: nat)
    requires records != [] && forall k :: 0 <= k < |records| && records[k].Some? ==> IsUint8(records[k].value)
    ensures DivDown(Total(records).battery, |records|) < 256
    ensures RoundDiv(CoreOf(Total(records).cores, i), |records|) < 256
  {
    TotalUint8(records, i);
    MeanWithinBound(Total(records).battery, |records|, 255);
    MeanWithinBound(CoreOf(Total(records).cores, i), |records|, 255);
  }

  lemma Uint8Fits(n: nat)
    requires n < 256
    ensures Uint8(n) == n
  {
  }

  lemma DividedFields(t: Stats, count: nat)
    requires count > 0
    ensures Divide(t, count).battery == Uint8(DivDown(t.battery, count))
    ensures |Divide(t, count).cores| == |t.cores|
    ensures forall i :: 0 <= i < |t.cores| ==> Divide(t, count).cores[i] == Uint8(RoundDiv(t.cores[i], count))
  {
  }

  /** The conversions of the battery and per-core averages back to uint8 lose nothing. */
  lemma Uint8NeverWraps(records: seq<Option<Stats>>, i: nat)
    requires records != [] && forall k :: 0 <= k < |records| && records[k].Some? ==> IsUint8(records[k].value)
    ensures var avg, t := Average(records), Total(records);
            && avg.battery == DivDown(t.battery, |records|)
            && |avg.cores| == |t.cores|
            && (i < |avg.cores| ==> avg.cores[i] == RoundDiv(t.cores[i], |records|))
  {
    var t := Total(records);
    DividedFields(t, |records|);
    CoreMean(records, i);
    Uint8Fits(DivDown(t.battery, |records|));
    Uint8Fits(RoundDiv(CoreOf(t.cores, i), |records|));
  }

  // ----- means

  /** The mean, rounded down. */
  predicate IsFloor(mean: nat, sum: nat, count: nat) {
    mean * count <= sum < (mean + 1) * count
  }

  /** The mean, rounded to the nearest, halves up. */
  predicate IsRounded(mean: nat, sum: nat, count: nat) {
    2 * sum - count < 2 * mean * count <= 2 * sum + count
  }

  lemma DivDownIsFloor(sum: nat, count: nat)
    requires count > 0
    ensures IsFloor(DivDown(sum, count), sum, count)
  {
    var q := sum / count;
    assert sum == q * count + sum % count;
    assert (q + 1) * count == q * count + count;
  }

  lemma RoundDivIsRounded(sum: nat, count: nat)
    requires count > 0
    ensures IsRounded(RoundDiv(sum, count), sum, count)
  {
    var x := 2 * sum + count;
    var q := x / (2 * count);
    assert x == q * (2 * count) + x % (2 * count);
    assert q * (2 * count) == 2 * q * count;
  }

  /** A channel's value is the mean of its readings over all records, those that do not decode counting as 0. */
  lemma ChannelIsMean(records: seq<Option<Stats>>, c: Channel)
    requires records != []
    ensures var avg := Read(Average(records), c).value;
            if InBytes(c) then IsFloor(avg, SumOf(records, c) % U64, |records|) else IsRounded(avg, SumOf(records, c), |records|)
  {
    hide DivDown, RoundDiv, IsFloor, IsRounded, IsPeak;
    AverageChannel(records, c);
    DivDownIsFloor(SumOf(records, c) % U64, |records|);
    RoundDivIsRounded(SumOf(records, c), |records|);
  }

  /** The readings without a peak. */
  datatype Rate = Battery | Core(i: nat) | NicUp(key: string) | NicDown(key: string)

  function RateOf(s: Stats, r: Rate): nat {
    match r
    case Battery => s.battery
    case Core(i) => if i < |s.cores| then s.cores[i] else 0
    case NicUp(key) => if key in s.nics then s.nics[key].up else 0
    case NicDown(key) => if key in s.nics then s.nics[key].down else 0
  }

  function SumOfRate(records: seq<Option<Stats>>, r: Rate): nat {
    var n := |records| - 1;
    if records == [] then 0
    else SumOfRate(records[..n], r) + if records[n].Some? then RateOf(records[n].value, r) else 0
  }

  predicate IsNic(r: Rate) {
    r.NicUp? || r.NicDown?
  }

  lemma AddRate(t: Stats, s: Stats, r: Rate)
    ensures !IsNic(r) ==> RateOf(Add(t, s), r) == RateOf(t, r) + RateOf(s, r)
    ensures IsNic(r) ==> RateOf(Add(t, s), r) == Wrap(RateOf(t, r) + RateOf(s, r))
                         || (RateOf(s, r) == 0 && RateOf(Add(t, s), r) == RateOf(t, r))
  {
  }

  lemma {:induction false} PlainRate(records: seq<Option<Stats>>, r: Rate)
    requires !IsNic(r)
    ensures RateOf(Total(records), r) == SumOfRate(records, r)
  {
    if records != [] {
      var n := |records| - 1;
      PlainRate(records[..n], r);
      hide Add, RateOf, IsNic;
      if records[n].Some? { AddRate(Total(records[..n]), records[n].value, r); }
    }
  }

  lemma {:induction false} WrappedRate(records: seq<Option<Stats>>, r: Rate)
    requires IsNic(r)
    ensures RateOf(Total(records), r) == Wrap(SumOfRate(records, r))
  {
    if records != [] {
      var n := |records| - 1;
      WrappedRate(records[..n], r);
      hide Add, RateOf, IsNic, Wrap;
      if records[n].Some? {
        AddRate(Total(records[..n]), records[n].value, r);
        SumWraps(SumOfRate(records[..n], r), RateOf(records[n].value, r));
      }
    }
  }

  lemma DivideRate(t: Stats, count: nat, r: Rate)
    requires count > 0
    ensures IsNic(r) ==> RateOf(Divide(t, count), r) == DivDown(RateOf(t, r), count)
    ensures r == Battery ==> RateOf(Divide(t, count), r) == Uint8(DivDown(RateOf(t, r), count))
    ensures r.Core? ==> RateOf(Divide(t, count), r) == Uint8(RoundDiv(RateOf(t, r), count))
  {
  }

  /** The battery and the cores, which are bytes, and the rates of the network interfaces are averaged over all
      records, too: battery and rates are rounded down, cores to the nearest. */
  lemma RateIsMean(records: seq<Option<Stats>>, r: Rate)
    requires records != [] && forall k :: 0 <= k < |records| && records[k].Some? ==> IsUint8(records[k].value)
    ensures var avg := RateOf(Average(records), r);
            match r
            case Battery => IsFloor(avg, SumOfRate(records, r), |records|)
            case Core(_) => IsRounded(avg, SumOfRate(records, r), |records|)
            case _ => IsFloor(avg, SumOfRate(records, r) % U64, |records|)
  {
    hide DivDown, RoundDiv, IsFloor, IsRounded, Add, Divide, Uint8;
    var n := |records|;
    if IsNic(r) { WrappedRate(records, r); } else { PlainRate(records, r); }
    DivideRate(Total(records), n, r);
    DivDownIsFloor(RateOf(Total(records), r), n);
    RoundDivIsRounded(RateOf(Total(records), r), n);
    match r
    case Core(i) =>
      CoreMean(records, i);
      Uint8Fits(RoundDiv(RateOf(Total(records), r), n));
    case Battery =>
      CoreMean(records, 0);
      Uint8Fits(DivDown(RateOf(Total(records), r), n));
    case _ =>
  }

  /** Some record that decodes has the interface, or the disk. */
  predicate HasNic(records: seq<Option<Stats>>, key: string) {
    exists i :: 0 <= i < |records| && records[i].Some? && key in records[i].value.nics
  }

  predicate HasFs(records: seq<Option<Stats>>, key: string) {
    exists i :: 0 <= i < |records| && records[i].Some? && key in records[i].value.fs
  }

  lemma HasNext(records: seq<Option<Stats>>, key: string)
    requires records != []
    ensures var r := records[|records| - 1];
            && (HasNic(records, key) <==> HasNic(records[..|records| - 1], key) || (r.Some? && key in r.value.nics))
            && (HasFs(records, key) <==> HasFs(records[..|records| - 1], key) || (r.Some? && key in r.value.fs))
  {
    var n := |records| - 1;
    assert forall i :: 0 <= i < n ==> records[i] == records[..n][i];
  }

  /** The average lists every interface and disk that some record has, as many cores as the longest list has, and the
      battery state of the last record. */
  lemma {:induction false} TotalLists(records: seq<Option<Stats>>, key: string)
    ensures var t := Total(records);
            && (key in t.nics <==> HasNic(records, key)) && (key in t.fs <==> HasFs(records, key))
            && (forall i :: 0 <= i < |records| && records[i].Some? ==> |records[i].value.cores| <= |t.cores|)
            && (|t.cores| == 0 || exists i :: 0 <= i < |records| && records[i].Some? && |records[i].value.cores| == |t.cores|)
            && (forall i :: 0 <= i < |records| && records[i].Some? && (forall j :: i < j < |records| ==> records[j] == None) ==>
                  t.batteryState == records[i].value.batteryState)
  {
    if records != [] {
      var n := |records| - 1;
      var rest := records[..n];
      TotalLists(rest, key);
      HasNext(records, key);
      assert forall i :: 0 <= i < n ==> records[i] == rest[i];
      assert |Total(records).cores| == if records[n] == None then |Total(rest).cores|
                                       else Max(|Total(rest).cores|, |records[n].value.cores|);
      hide AddNic, AddFs, AddCores, AddHundredths, AddBytes;
    }
  }

  lemma AverageLists(records: seq<Option<Stats>>, key: string)
    ensures var avg := Average(records);
            && (key in avg.nics <==> HasNic(records, key)) && (key in avg.fs <==> HasFs(records, key))
            && (forall i :: 0 <= i < |records| && records[i].Some? ==> |records[i].value.cores| <= |avg.cores|)
            && (|avg.cores| == 0 || exists i :: 0 <= i < |records| && records[i].Some? && |records[i].value.cores| == |avg.cores|)
            && (forall i :: 0 <= i < |records| && records[i].Some? && (forall j :: i < j < |records| ==> records[j] == None) ==>
                  avg.batteryState == records[i].value.batteryState)
  {
    hide Add, DivNic, DivFs, DivHundredths, DivBytes, RoundDiv, DivDown, Uint8;
    TotalLists(records, key);
  }
}
