/** Network rates (agent/network.go): totals against a baseline for each polling interval, with a reset when
    a rate is impossible, and one delta tracker for each interval for the single interfaces. */
module NetworkRates {
  import opened Options
  import opened DeltaTracking

  datatype Nic = Nic(name: string, sent: Uint64, recv: Uint64)

  /** Totals and time (milliseconds) of a sample. */
  datatype Baseline = Baseline(sent: Uint64, recv: Uint64, time: int)

  datatype NicReport = NicReport(up: Uint64, down: Uint64, sent: Uint64, recv: Uint64)

  /** `sentPs` and `recvPs` are hundredths of MB/s. */
  datatype Report = Report(sentPs: nat, recvPs: nat, bandwidth: (Uint64, Uint64), nics: map<string, NicReport>)

  datatype State = State(interfaces: set<string>, trackers: map<nat, Tracker>, baselines: map<nat, Baseline>)

  /** 10,000 MB/s in hundredths. */
  const LIMIT: nat := 1_000_000

  // ----- arithmetic

  /** `bytesToMegabytes`: MB in hundredths, half rounded up. */
  function Megabytes(bytes: nat): nat {
    (200 * bytes + 1_048_576) / 2_097_152
  }

  /** Unsigned, as the hardware computes it. */
  function PerSecond(delta: Uint64, ms: Uint64): Uint64
    requires ms > 0
  {
    var scaled := delta * 1000 % U64;
    DivShrinks(scaled, ms);
    scaled / ms
  }

  lemma MulGrows(q: nat, n: nat)
    requires n > 0
    ensures q * n >= q
  {
    assert q * n == q + q * (n - 1);
  }

  lemma DivShrinks(x: nat, n: nat)
    requires n > 0
    ensures 0 <= x / n <= x
  {
    var q := x / n;
    MulGrows(q, n);
    assert x == q * n + x % n;
  }

  function Rate(total: Uint64, before: Uint64, ms: Uint64): Uint64 {
    if ms > 0 then PerSecond(Sub64(total, before), ms) else 0
  }

  /** A single interface: a counter that went down has restarted from 0. */
  function NicRate(value: Uint64, previous: Option<Uint64>, ms: Uint64): Uint64 {
    if ms > 0 && previous.Some?
    then PerSecond(if value >= previous.value then value - previous.value else value, ms)
    else 0
  }

  // ----- one sample

  function Elapsed(s: State, key: nat, now: int): Uint64 {
    if key in s.baselines then (now - s.baselines[key].time) % U64 else 0
  }

  function BaselineAt(s: State, key: nat): Baseline {
    if key in s.baselines then s.baselines[key] else Baseline(0, 0, 0)
  }

  function TotalSent(interfaces: set<string>, netIO: seq<Nic>): Uint64 {
    var n := |netIO| - 1;
    if netIO == [] then 0
    else if netIO[n].name in interfaces then (TotalSent(interfaces, netIO[..n]) + netIO[n].sent) % U64
    else TotalSent(interfaces, netIO[..n])
  }

  function TotalRecv(interfaces: set<string>, netIO: seq<Nic>): Uint64 {
    var n := |netIO| - 1;
    if netIO == [] then 0
    else if netIO[n].name in interfaces then (TotalRecv(interfaces, netIO[..n]) + netIO[n].recv) % U64
    else TotalRecv(interfaces, netIO[..n])
  }

  function UpKey(name: string): string {
    name + "up"
  }

  function DownKey(name: string): string {
    name + "down"
  }

  function TrackNics(interfaces: set<string>, t: Tracker, netIO: seq<Nic>): Tracker {
    var n := |netIO| - 1;
    if netIO == [] then t
    else
      var before := TrackNics(interfaces, t, netIO[..n]);
      var v := netIO[n];
      if v.name in interfaces then before.(current := before.current[UpKey(v.name) := v.sent][DownKey(v.name) := v.recv])
      else before
  }

  function NicReports(interfaces: set<string>, previous: map<string, Uint64>, netIO: seq<Nic>, ms: Uint64): map<string, NicReport> {
    var n := |netIO| - 1;
    if netIO == [] then map[]
    else
      var before := NicReports(interfaces, previous, netIO[..n], ms);
      var v := netIO[n];
      if v.name in interfaces
      then before[v.name := NicReport(NicRate(v.sent, Lookup(previous, UpKey(v.name)), ms),
                                      NicRate(v.recv, Lookup(previous, DownKey(v.name)), ms), v.sent, v.recv)]
      else before
  }

  function Cycled(t: Tracker): Tracker {
    Tracker(map[], t.current)
  }

  /** `initializeNetIoStats`: every interval starts afresh. */
  function Initialized(detected: set<string>): State {
    State(detected, map[], map[])
  }

  /** `ensureNetInterfacesInitialized`. */
  function Ensured(s: State, detected: set<string>): State {
    if s.interfaces == {} then Initialized(detected) else s
  }

  predicate Invalid(sentPs: nat, recvPs: nat) {
    sentPs > LIMIT || recvPs > LIMIT
  }

  function SentRate(s: State, key: nat, netIO: seq<Nic>, now: int): Uint64 {
    Rate(TotalSent(s.interfaces, netIO), BaselineAt(s, key).sent, Elapsed(s, key, now))
  }

  function RecvRate(s: State, key: nat, netIO: seq<Nic>, now: int): Uint64 {
    Rate(TotalRecv(s.interfaces, netIO), BaselineAt(s, key).recv, Elapsed(s, key, now))
  }

  predicate Rejects(s: State, key: nat, netIO: seq<Nic>, now: int) {
    Invalid(Megabytes(SentRate(s, key, netIO, now)), Megabytes(RecvRate(s, key, netIO, now)))
  }

  function Tracked(s: State, key: nat, netIO: seq<Nic>): Tracker {
    TrackNics(s.interfaces, Cycled(TrackerAt(s.trackers, key)), netIO)
  }

  function Next(s: State, key: nat, netIO: seq<Nic>, now: int, detected: set<string>): State {
    if Rejects(s, key, netIO, now) then Initialized(detected)
    else
      var sample := Baseline(TotalSent(s.interfaces, netIO), TotalRecv(s.interfaces, netIO), now);
      s.(trackers := s.trackers[key := Tracked(s, key, netIO)], baselines := s.baselines[key := sample])
  }

  function ReportOf(s: State, key: nat, netIO: seq<Nic>, now: int): Report {
    var nics := NicReports(s.interfaces, TrackerAt(s.trackers, key).current, netIO, Elapsed(s, key, now));
    var sent, recv := SentRate(s, key, netIO, now), RecvRate(s, key, netIO, now);
    if Rejects(s, key, netIO, now) then Report(0, 0, (0, 0), nics)
    else Report(Megabytes(sent), Megabytes(recv), (sent, recv), nics)
  }

  // ----- as the agent does it

  class Agent {
    var netInterfaces: set<string>
    var netInterfaceDeltaTrackers: map<nat, DeltaTracker>
    var netIoStats: map<nat, Baseline>

    ghost predicate Valid()
      reads this
    {
      forall j, k :: j in netInterfaceDeltaTrackers && k in netInterfaceDeltaTrackers && j != k ==>
        netInterfaceDeltaTrackers[j] != netInterfaceDeltaTrackers[k]
    }

    ghost function Value(): State
      reads this, netInterfaceDeltaTrackers.Values
    {
      State(netInterfaces, map k | k in netInterfaceDeltaTrackers :: netInterfaceDeltaTrackers[k].Value(), netIoStats)
    }

    constructor ()
      ensures Valid() && Value() == State({}, map[], map[])
      ensures netInterfaceDeltaTrackers == map[]
    {
      netInterfaces, netInterfaceDeltaTrackers, netIoStats := {}, map[], map[];
    }

    /** `detected` are the interfaces found and selected by name. */
    method InitializeNetIoStats(detected: set<string>)
      modifies this
      ensures Valid() && Value() == Initialized(detected) && netInterfaceDeltaTrackers == map[]
    {
      netInterfaces := detected;
      netInterfaceDeltaTrackers := map[];
      netIoStats := map[];
    }

    method LoadAndTickNetBaseline(cacheTimeMs: nat, now: int) returns (netIoStat: Baseline, msElapsed: Uint64)
      ensures msElapsed == Elapsed(Value(), cacheTimeMs, now)
      ensures netIoStat == BaselineAt(Value(), cacheTimeMs).(time := now)
    {
      if cacheTimeMs !in netIoStats {
        return Baseline(0, 0, now), 0;
      }
      netIoStat := netIoStats[cacheTimeMs];
      msElapsed := (now - netIoStat.time) % U64;
      netIoStat := netIoStat.(time := now);
    }

    /** The tracker for the interval, created when missing. */
    method TrackerFor(cacheTimeMs: nat) returns (tracker: DeltaTracker)
      requires Valid()
      modifies this`netInterfaceDeltaTrackers
      ensures Valid() && cacheTimeMs in netInterfaceDeltaTrackers && netInterfaceDeltaTrackers[cacheTimeMs] == tracker
      ensures cacheTimeMs in old(netInterfaceDeltaTrackers) ==> netInterfaceDeltaTrackers == old(netInterfaceDeltaTrackers)
      ensures cacheTimeMs !in old(netInterfaceDeltaTrackers) ==>
                fresh(tracker) && netInterfaceDeltaTrackers == old(netInterfaceDeltaTrackers)[cacheTimeMs := tracker]
      ensures tracker.Value() == TrackerAt(old(Value()).trackers, cacheTimeMs)
    {
      if cacheTimeMs !in netInterfaceDeltaTrackers {
        tracker := new DeltaTracker();
        netInterfaceDeltaTrackers := netInterfaceDeltaTrackers[cacheTimeMs := tracker];
      } else {
        tracker := netInterfaceDeltaTrackers[cacheTimeMs];
      }
    }

    /** The loop body for one interface. */
    method TrackInterface(tracker: DeltaTracker, msElapsed: Uint64, v: Nic) returns (report: NicReport)
      modifies tracker
      ensures tracker.previous == old(tracker.previous)
      ensures tracker.current == old(tracker.current)[UpKey(v.name) := v.sent][DownKey(v.name) := v.recv]
      ensures report == NicReport(NicRate(v.sent, Lookup(tracker.previous, UpKey(v.name)), msElapsed),
                                  NicRate(v.recv, Lookup(tracker.previous, DownKey(v.name)), msElapsed), v.sent, v.recv)
    {
      hide PerSecond, UpKey, DownKey;
      var upDelta, downDelta: Uint64 := 0, 0;
      var upKey, downKey := UpKey(v.name), DownKey(v.name);
      tracker.Set(upKey, v.sent);
      tracker.Set(downKey, v.recv);
      if msElapsed > 0 {
        var prevVal := tracker.Previous(upKey);
        if prevVal.Some? {
          var deltaBytes := if v.sent >= prevVal.value then v.sent - prevVal.value else v.sent;
          upDelta := PerSecond(deltaBytes, msElapsed);
        }
        prevVal := tracker.Previous(downKey);
        if prevVal.Some? {
          var deltaBytes := if v.recv >= prevVal.value then v.recv - prevVal.value else v.recv;
          downDelta := PerSecond(deltaBytes, msElapsed);
        }
      }
      report := NicReport(upDelta, downDelta, v.sent, v.recv);
    }

    /** The loop over the interfaces, on the interval's tracker. */
    method TrackInterfaces(tracker: DeltaTracker, msElapsed: Uint64, netIO: seq<Nic>)
        returns (totalBytesSent: Uint64, totalBytesRecv: Uint64, nics: map<string, NicReport>)
      modifies tracker
      ensures tracker.Value() == TrackNics(netInterfaces, Cycled(old(tracker.Value())), netIO)
      ensures totalBytesSent == TotalSent(netInterfaces, netIO) && totalBytesRecv == TotalRecv(netInterfaces, netIO)
      ensures nics == NicReports(netInterfaces, old(tracker.current), netIO, msElapsed)
    {
      hide NicRate, UpKey, DownKey;
      ghost var before := tracker.Value();
      tracker.Cycle();
      totalBytesSent, totalBytesRecv, nics := 0, 0, map[];
      for i := 0 to |netIO|
        invariant tracker.previous == before.current
        invariant tracker.Value() == TrackNics(netInterfaces, Cycled(before), netIO[..i])
        invariant totalBytesSent == TotalSent(netInterfaces, netIO[..i])
        invariant totalBytesRecv == TotalRecv(netInterfaces, netIO[..i])
        invariant nics == NicReports(netInterfaces, before.current, netIO[..i], msElapsed)
      {
        assert netIO[..i + 1][..i] == netIO[..i];
        var v := netIO[i];
        if v.name !in netInterfaces {
          continue;
        }
        totalBytesSent := (totalBytesSent + v.sent) % U64;
        totalBytesRecv := (totalBytesRecv + v.recv) % U64;
        var report := TrackInterface(tracker, msElapsed, v);
        nics := nics[v.name := report];
      }
      assert netIO[..|netIO|] == netIO;
    }

    method SumAndTrackPerNicDeltas(cacheTimeMs: nat, msElapsed: Uint64, netIO: seq<Nic>)
        returns (totalBytesSent: Uint64, totalBytesRecv: Uint64, nics: map<string, NicReport>)
      requires Valid()
      modifies this`netInterfaceDeltaTrackers, netInterfaceDeltaTrackers.Values
      ensures Valid()
      ensures Value() == old(Value()).(trackers := old(Value()).trackers[cacheTimeMs := Tracked(old(Value()), cacheTimeMs, netIO)])
      ensures fresh(netInterfaceDeltaTrackers.Values - old(netInterfaceDeltaTrackers.Values))
      ensures totalBytesSent == TotalSent(netInterfaces, netIO) && totalBytesRecv == TotalRecv(netInterfaces, netIO)
      ensures nics == NicReports(netInterfaces, TrackerAt(old(Value()).trackers, cacheTimeMs).current, netIO, msElapsed)
    {
      ghost var was := Value();
      var tracker := TrackerFor(cacheTimeMs);
      totalBytesSent, totalBytesRecv, nics := TrackInterfaces(tracker, msElapsed, netIO);
      assert Value().trackers == was.trackers[cacheTimeMs := Tracked(was, cacheTimeMs, netIO)];
    }

    method ComputeBytesPerSecond(msElapsed: Uint64, totalBytesSent: Uint64, totalBytesRecv: Uint64, nis: Baseline)
        returns (bytesSentPerSecond: Uint64, bytesRecvPerSecond: Uint64)
      ensures bytesSentPerSecond == Rate(totalBytesSent, nis.sent, msElapsed)
      ensures bytesRecvPerSecond == Rate(totalBytesRecv, nis.recv, msElapsed)
    {
      bytesSentPerSecond, bytesRecvPerSecond := 0, 0;
      if msElapsed > 0 {
        bytesSentPerSecond := PerSecond(Sub64(totalBytesSent, nis.sent), msElapsed);
        bytesRecvPerSecond := PerSecond(Sub64(totalBytesRecv, nis.recv), msElapsed);
      }
    }

    method ApplyNetworkTotals(cacheTimeMs: nat, nics: map<string, NicReport>, nis: Baseline, totalBytesSent: Uint64,
                              totalBytesRecv: Uint64, bytesSentPerSecond: Uint64, bytesRecvPerSecond: Uint64,
                              detected: set<string>) returns (report: Report)
      requires Valid()
      modifies this
      ensures Valid() && netInterfaceDeltaTrackers.Values <= old(netInterfaceDeltaTrackers.Values)
      ensures var sentPs, recvPs := Megabytes(bytesSentPerSecond), Megabytes(bytesRecvPerSecond);
              if Invalid(sentPs, recvPs)
              then Value() == Initialized(detected) && report == Report(0, 0, (0, 0), nics)
              else Value() == old(Value()).(baselines := old(netIoStats)[cacheTimeMs := Baseline(totalBytesSent, totalBytesRecv, nis.time)])
                   && report == Report(sentPs, recvPs, (bytesSentPerSecond, bytesRecvPerSecond), nics)
    {
      var networkSentPs := Megabytes(bytesSentPerSecond);
      var networkRecvPs := Megabytes(bytesRecvPerSecond);
      if networkSentPs > LIMIT || networkRecvPs > LIMIT {
        InitializeNetIoStats(detected);
        netIoStats := netIoStats - {cacheTimeMs};
        netInterfaceDeltaTrackers := netInterfaceDeltaTrackers - {cacheTimeMs};
        return Report(0, 0, (0, 0), nics);
      }
      netIoStats := netIoStats[cacheTimeMs := Baseline(totalBytesSent, totalBytesRecv, nis.time)];
      return Report(networkSentPs, networkRecvPs, (bytesSentPerSecond, bytesRecvPerSecond), nics);
    }

    /** One sample under the polling interval `cacheTimeMs`. */
    method UpdateNetworkStats(cacheTimeMs: nat, netIO: seq<Nic>, now: int, detected: set<string>) returns (report: Report)
      requires Valid()
      modifies this, netInterfaceDeltaTrackers.Values
      ensures Valid() && fresh(netInterfaceDeltaTrackers.Values - old(netInterfaceDeltaTrackers.Values))
      ensures Value() == Next(Ensured(old(Value()), detected), cacheTimeMs, netIO, now, detected)
      ensures report == ReportOf(Ensured(old(Value()), detected), cacheTimeMs, netIO, now)
    {
      if netInterfaces == {} {
        InitializeNetIoStats(detected);
      }
      ghost var s := Value();
      assert s == Ensured(old(Value()), detected);
      var nis, msElapsed := LoadAndTickNetBaseline(cacheTimeMs, now);
      var totalBytesSent, totalBytesRecv, nics := SumAndTrackPerNicDeltas(cacheTimeMs, msElapsed, netIO);
      var sent, recv := ComputeBytesPerSecond(msElapsed, totalBytesSent, totalBytesRecv, nis);
      report := ApplyNetworkTotals(cacheTimeMs, nics, nis, totalBytesSent, totalBytesRecv, sent, recv, detected);
    }
  }

  // ----- impossible rates

  /** The largest rate accepted, in bytes per second, is one less. */
  const FIRST_INVALID: int := 10_485_765_243

  /** A rate is over 10,000 MB/s after rounding from 10,485,765,243 bytes per second on. */
  lemma InvalidFrom(bytes: nat)
    ensures Megabytes(bytes) > LIMIT <==> bytes >= FIRST_INVALID
  {
  }

  lemma QuotientAtLeast(x: nat, n: nat, k: nat)
    requires n > 0
    ensures x / n >= k <==> x >= k * n
  {
    var q := x / n;
    assert x == q * n + x % n;
    if q >= k {
      assert q * n == k * n + (q - k) * n;
      MulGrows(q - k, n);
    } else {
      assert k * n == (q + 1) * n + (k - q - 1) * n;
      MulGrows(k - q - 1, n);
    }
  }

  lemma ModWithin(x: int, k: int)
    requires 0 <= x + k * U64 < U64
    ensures x % U64 == x + k * U64
  {
    ModShift(x, k);
  }

  /** The rate of a total that went down by `d`. */
  lemma DropScales(total: Uint64, before: Uint64)
    requires total < before
    ensures Sub64(total, before) * 1000 % U64 == (-1000 * (before - total)) % U64
    ensures 1000 * (before - total) < U64 ==> (-1000 * (before - total)) % U64 == U64 - 1000 * (before - total)
  {
    var d := before - total;
    ModWithin(total - before, 1);
    assert Sub64(total, before) == U64 - d;
    ModShift(-1000 * d, 1000);
    assert Sub64(total, before) * 1000 == -1000 * d + 1000 * U64;
    if 1000 * d < U64 {
      ModWithin(-1000 * d, 1);
    }
  }

  /** A total that went down by `d` within `ms` milliseconds is recognised, by a rate over 10,000 MB/s, if
      and only if -1000 d modulo 2^64 is at least 10485765243 ms; for drops of less than 2^64 / 1000, if and
      only if 1000 d + 10485765243 ms is at most 2^64. */
  lemma WrapIsRejectedExactly(total: Uint64, before: Uint64, ms: Uint64)
    requires total < before && ms > 0
    ensures Megabytes(Rate(total, before, ms)) > LIMIT <==> (-1000 * (before - total)) % U64 >= FIRST_INVALID * ms
    ensures 1000 * (before - total) < U64 ==>
              (Megabytes(Rate(total, before, ms)) > LIMIT <==> 1000 * (before - total) + FIRST_INVALID * ms <= U64)
  {
    DropScales(total, before);
    RejectedExactly(total, before, ms);
  }

  /** Any total: what is compared is 1000 times the difference, modulo 2^64. */
  lemma RejectedExactly(total: Uint64, before: Uint64, ms: Uint64)
    requires ms > 0
    ensures Megabytes(Rate(total, before, ms)) > LIMIT <==> Sub64(total, before) * 1000 % U64 >= FIRST_INVALID * ms
  {
    InvalidFrom(Rate(total, before, ms));
    QuotientAtLeast(Sub64(total, before) * 1000 % U64, ms, FIRST_INVALID);
  }

  /** No sample reports more than 10,000 MB/s. */
  lemma ReportsStayBelow(s: State, key: nat, netIO: seq<Nic>, now: int)
    ensures var r := ReportOf(s, key, netIO, now);
            && r.sentPs <= LIMIT && r.recvPs <= LIMIT
            && r.bandwidth.0 < FIRST_INVALID && r.bandwidth.1 < FIRST_INVALID
  {
    InvalidFrom(SentRate(s, key, netIO, now));
    InvalidFrom(RecvRate(s, key, netIO, now));
  }

  predicate ReportsZero(r: Report) {
    r.sentPs == 0 && r.recvPs == 0 && r.bandwidth == (0, 0)
  }

  predicate AllZero(nics: map<string, NicReport>) {
    forall name :: name in nics ==> nics[name].up == 0 && nics[name].down == 0
  }

  lemma {:induction false} FirstNicReports(interfaces: set<string>, previous: map<string, Uint64>, netIO: seq<Nic>)
    ensures AllZero(NicReports(interfaces, previous, netIO, 0))
  {
    if netIO != [] {
      FirstNicReports(interfaces, previous, netIO[..|netIO| - 1]);
    }
  }

  /** The first sample after a reset reports zero under whatever interval, for the totals and for every
      interface. */
  lemma FirstSampleIsZero(detected: set<string>, key: nat, netIO: seq<Nic>, now: int)
    ensures ReportsZero(ReportOf(Initialized(detected), key, netIO, now))
    ensures AllZero(ReportOf(Initialized(detected), key, netIO, now).nics)
  {
    FirstNicReports(detected, TrackerAt(map[], key).current, netIO);
  }

  /** The total went down within `ms` milliseconds, by little enough to be recognised. */
  predicate Wrapped(total: Uint64, before: Uint64, ms: Uint64) {
    total < before && ms > 0 && 1000 * (before - total) + FIRST_INVALID * ms <= U64
  }

  lemma WrappedIsRejected(total: Uint64, before: Uint64, ms: Uint64)
    requires Wrapped(total, before, ms)
    ensures Megabytes(Rate(total, before, ms)) > LIMIT
  {
    MulGrows(ms, FIRST_INVALID);
    WrapIsRejectedExactly(total, before, ms);
  }

  /** A wrapped total of bytes sent resets everything: the sample reports zero, and the next one starts
      from nothing under whatever interval. The same holds for bytes received. */
  lemma WrapResets(s: State, key: nat, netIO: seq<Nic>, now: int, detected: set<string>)
    requires Wrapped(TotalSent(s.interfaces, netIO), BaselineAt(s, key).sent, Elapsed(s, key, now))
          || Wrapped(TotalRecv(s.interfaces, netIO), BaselineAt(s, key).recv, Elapsed(s, key, now))
    ensures ReportsZero(ReportOf(s, key, netIO, now))
    ensures Next(s, key, netIO, now, detected) == Initialized(detected)
  {
    hide Megabytes, Rate, TotalSent, TotalRecv, NicReports, Wrapped, Elapsed, BaselineAt;
    if Wrapped(TotalSent(s.interfaces, netIO), BaselineAt(s, key).sent, Elapsed(s, key, now)) {
      WrappedIsRejected(TotalSent(s.interfaces, netIO), BaselineAt(s, key).sent, Elapsed(s, key, now));
    } else {
      WrappedIsRejected(TotalRecv(s.interfaces, netIO), BaselineAt(s, key).recv, Elapsed(s, key, now));
    }
  }

  // ----- an accepted rate belongs to its own interval

  datatype Sample = Sample(key: nat, netIO: seq<Nic>, now: int, detected: set<string>)

  function Ready(s: State, x: Sample): State {
    Ensured(s, x.detected)
  }

  function After(s: State, samples: seq<Sample>): State {
    var n := |samples| - 1;
    if samples == [] then s
    else
      var before := After(s, samples[..n]);
      Next(Ready(before, samples[n]), samples[n].key, samples[n].netIO, samples[n].now, samples[n].detected)
  }

  /** Sample `i` was accepted under `key`, with these totals, and nothing has been reset since. */
  ghost predicate Stands(s: State, samples: seq<Sample>, i: nat, key: nat, b: Baseline)
    requires i < |samples|
  {
    var x := samples[i];
    var before := Ready(After(s, samples[..i]), x);
    && x.key == key && !Rejects(before, key, x.netIO, x.now)
    && b == Baseline(TotalSent(before.interfaces, x.netIO), TotalRecv(before.interfaces, x.netIO), x.now)
    && forall j: nat :: i < j < |samples| ==> Leaves(s, samples, j, key)
  }

  /** Sample `j` is of another interval and resets nothing. */
  ghost predicate Leaves(s: State, samples: seq<Sample>, j: nat, key: nat)
    requires j < |samples|
  {
    var before := After(s, samples[..j]);
    && samples[j].key != key && before.interfaces != {}
    && !Rejects(before, samples[j].key, samples[j].netIO, samples[j].now)
  }

  lemma StandsNext(s: State, samples: seq<Sample>, n: nat, i: nat, key: nat, b: Baseline)
    requires n + 1 == |samples| && i < n
    ensures Stands(s, samples, i, key, b) <==> Stands(s, samples[..n], i, key, b) && Leaves(s, samples, n, key)
  {
    hide Leaves, Rejects;
    assert samples[..n][..i] == samples[..i];
    forall j: nat | j < n ensures Leaves(s, samples, j, key) <==> Leaves(s, samples[..n], j, key) {
      LeavesBefore(s, samples, n, j, key);
    }
  }

  lemma LeavesBefore(s: State, samples: seq<Sample>, n: nat, j: nat, key: nat)
    requires j < n < |samples|
    ensures Leaves(s, samples, j, key) <==> Leaves(s, samples[..n], j, key)
  {
    hide Rejects;
    assert samples[..n][..j] == samples[..j];
  }

  lemma BaselineNext(s: State, samples: seq<Sample>, n: nat, key: nat)
    requires n + 1 == |samples|
    ensures var before, end := After(s, samples[..n]), After(s, samples);
            && (key in end.baselines && samples[n].key != key ==>
                 Leaves(s, samples, n, key) && key in before.baselines && end.baselines[key] == before.baselines[key])
            && (key in end.baselines && samples[n].key == key ==> Stands(s, samples, n, key, end.baselines[key]))
            && (key !in end.baselines ==>
                 (Leaves(s, samples, n, key) ==> key !in before.baselines) && forall b :: !Stands(s, samples, n, key, b))
  {
    hide Rejects;
  }

  /** In every run, the baseline that a rate is taken against is the last sample under the same interval,
      if that was accepted and nothing reset since; otherwise there is none, and the rate is zero. */
  lemma {:induction false} BaselineIsLastOwnSample(s: State, samples: seq<Sample>, key: nat)
    requires s.baselines == map[]
    ensures var end := After(s, samples);
            if key in end.baselines
            then exists i: nat :: i < |samples| && Stands(s, samples, i, key, end.baselines[key])
            else forall i: nat, b :: i < |samples| ==> !Stands(s, samples, i, key, b)
  {
    if samples != [] {
      var n := |samples| - 1;
      var before, end := After(s, samples[..n]), After(s, samples);
      BaselineIsLastOwnSample(s, samples[..n], key);
      BaselineNext(s, samples, n, key);
      hide After, Stands, Leaves;
      if key in end.baselines {
        if samples[n].key != key {
          var i: nat :| i < n && Stands(s, samples[..n], i, key, before.baselines[key]);
          StandsNext(s, samples, n, i, key, before.baselines[key]);
        }
      } else {
        forall i: nat, b | i < |samples| ensures !Stands(s, samples, i, key, b) {
          if i < n { StandsNext(s, samples, n, i, key, b); }
        }
      }
    }
  }

  /** Until the interval's next sample, its tracker holds what its last sample left there. */
  lemma {:induction false} TrackerStands(s: State, samples: seq<Sample>, i: nat, key: nat, b: Baseline)
    requires i < |samples| && Stands(s, samples, i, key, b)
    ensures TrackerAt(After(s, samples).trackers, key)
         == Tracked(Ready(After(s, samples[..i]), samples[i]), key, samples[i].netIO)
  {
    var n := |samples| - 1;
    if i < n {
      StandsNext(s, samples, n, i, key, b);
      TrackerStands(s, samples[..n], i, key, b);
      assert samples[..n][..i] == samples[..i];
      LeftTracker(s, samples, n, key);
    } else {
      OwnTracker(s, samples, i, key, b);
    }
  }

  lemma LeftTracker(s: State, samples: seq<Sample>, n: nat, key: nat)
    requires n + 1 == |samples| && Leaves(s, samples, n, key)
    ensures TrackerAt(After(s, samples).trackers, key) == TrackerAt(After(s, samples[..n]).trackers, key)
  {
    hide Rejects, Tracked;
  }

  lemma OwnTracker(s: State, samples: seq<Sample>, n: nat, key: nat, b: Baseline)
    requires n + 1 == |samples| && Stands(s, samples, n, key, b)
    ensures TrackerAt(After(s, samples).trackers, key)
         == Tracked(Ready(After(s, samples[..n]), samples[n]), key, samples[n].netIO)
  {
    hide Rejects, Tracked;
  }

  /** The interface appears once in the sample. */
  predicate Once(netIO: seq<Nic>, i: nat) {
    i < |netIO| && forall j :: 0 <= j < |netIO| && j != i ==> netIO[j].name != netIO[i].name
  }

  lemma KeysDiffer(a: string, b: string)
    ensures UpKey(a) != DownKey(b)
    ensures a != b ==> UpKey(a) != UpKey(b) && DownKey(a) != DownKey(b)
  {
    assert UpKey(a)[|UpKey(a)| - 1] == 'p' && DownKey(b)[|DownKey(b)| - 1] == 'n';
    assert UpKey(a)[..|UpKey(a)| - 2] == a && UpKey(b)[..|UpKey(b)| - 2] == b;
    assert DownKey(a)[..|DownKey(a)| - 4] == a && DownKey(b)[..|DownKey(b)| - 4] == b;
  }

  lemma {:induction false} TrackedCounters(interfaces: set<string>, t: Tracker, netIO: seq<Nic>, i: nat)
    requires Once(netIO, i) && netIO[i].name in interfaces
    ensures var current := TrackNics(interfaces, t, netIO).current;
            && Lookup(current, UpKey(netIO[i].name)) == Some(netIO[i].sent)
            && Lookup(current, DownKey(netIO[i].name)) == Some(netIO[i].recv)
  {
    var n := |netIO| - 1;
    KeysDiffer(netIO[n].name, netIO[i].name);
    KeysDiffer(netIO[i].name, netIO[n].name);
    if i < n {
      assert Once(netIO[..n], i);
      TrackedCounters(interfaces, t, netIO[..n], i);
    }
  }

  lemma {:induction false} ReportedRates(interfaces: set<string>, previous: map<string, Uint64>, netIO: seq<Nic>, ms: Uint64, i: nat)
    requires Once(netIO, i) && netIO[i].name in interfaces
    ensures var nics := NicReports(interfaces, previous, netIO, ms);
            netIO[i].name in nics
            && nics[netIO[i].name] == NicReport(NicRate(netIO[i].sent, Lookup(previous, UpKey(netIO[i].name)), ms),
                                                NicRate(netIO[i].recv, Lookup(previous, DownKey(netIO[i].name)), ms),
                                                netIO[i].sent, netIO[i].recv)
  {
    hide NicRate;
    var n := |netIO| - 1;
    if i < n {
      assert Once(netIO[..n], i);
      ReportedRates(interfaces, previous, netIO[..n], ms, i);
    }
  }

  /** Exactly once for every interface: its rates are taken against its own counters in the interval's last
      sample, whatever was sampled under other intervals since. */
  lemma InterfaceRateIsOwn(s: State, samples: seq<Sample>, i: nat, key: nat, b: Baseline, was: nat,
                           netIO: seq<Nic>, now: int, at: nat)
    requires i < |samples| && Stands(s, samples, i, key, b)
    requires var end := After(s, samples);
             Once(samples[i].netIO, was) && Once(netIO, at) && netIO[at].name == samples[i].netIO[was].name
             && netIO[at].name in end.interfaces && netIO[at].name in Ready(After(s, samples[..i]), samples[i]).interfaces
    ensures var end := After(s, samples);
            var ms := Elapsed(end, key, now);
            var nics := ReportOf(end, key, netIO, now).nics;
            netIO[at].name in nics
            && nics[netIO[at].name] == NicReport(NicRate(netIO[at].sent, Some(samples[i].netIO[was].sent), ms),
                                                 NicRate(netIO[at].recv, Some(samples[i].netIO[was].recv), ms),
                                                 netIO[at].sent, netIO[at].recv)
  {
    hide NicRate, After, Stands, Rejects, Elapsed;
    var end := After(s, samples);
    var before := Ready(After(s, samples[..i]), samples[i]);
    TrackerStands(s, samples, i, key, b);
    TrackedCounters(before.interfaces, Cycled(TrackerAt(before.trackers, key)), samples[i].netIO, was);
    ReportedRates(end.interfaces, TrackerAt(end.trackers, key).current, netIO, Elapsed(end, key, now), at);
  }

  // ----- what a report says

  /** What the selected interfaces have sent, or received, altogether. */
  function SelectedBytes(interfaces: set<string>, netIO: seq<Nic>, sent: bool): nat
    decreases |netIO|
  {
    if netIO == [] then 0
    else
      var v := netIO[0];
      (if v.name in interfaces then if sent then v.sent else v.recv else 0) + SelectedBytes(interfaces, netIO[1..], sent)
  }

  lemma {:induction false} SelectedNext(interfaces: set<string>, netIO: seq<Nic>, sent: bool)
    requires netIO != []
    ensures var n := |netIO| - 1;
            SelectedBytes(interfaces, netIO, sent)
            == SelectedBytes(interfaces, netIO[..n], sent)
               + if netIO[n].name in interfaces then if sent then netIO[n].sent else netIO[n].recv else 0
    decreases |netIO|
  {
    var n := |netIO| - 1;
    if n > 0 {
      SelectedNext(interfaces, netIO[1..], sent);
      assert netIO[1..][..n - 1] == netIO[..n][1..];
    }
  }

  lemma AddModulo(a: nat, b: nat)
    ensures (a % U64 + b) % U64 == (a + b) % U64
  {
  }

  /** Totals are sums over the selected interfaces, and no others, modulo 2^64. */
  lemma {:induction false} TotalsAreSums(interfaces: set<string>, netIO: seq<Nic>)
    ensures TotalSent(interfaces, netIO) == SelectedBytes(interfaces, netIO, true) % U64
    ensures TotalRecv(interfaces, netIO) == SelectedBytes(interfaces, netIO, false) % U64
  {
    if netIO != [] {
      var n := |netIO| - 1;
      TotalsAreSums(interfaces, netIO[..n]);
      SelectedNext(interfaces, netIO, true);
      SelectedNext(interfaces, netIO, false);
      AddModulo(SelectedBytes(interfaces, netIO[..n], true), netIO[n].sent);
      AddModulo(SelectedBytes(interfaces, netIO[..n], false), netIO[n].recv);
    }
  }

  /** Bytes for each second, from bytes in so many milliseconds, rounded down. The multiplication wraps. */
  predicate IsRate(rate: nat, bytes: nat, ms: nat) {
    rate * ms <= bytes * 1000 % U64 < (rate + 1) * ms
  }

  lemma PerSecondIsRate(delta: Uint64, ms: Uint64)
    requires ms > 0
    ensures IsRate(PerSecond(delta, ms), delta, ms)
  {
    var scaled := delta * 1000 % U64;
    var q := scaled / ms;
    assert scaled == q * ms + scaled % ms;
    assert (q + 1) * ms == q * ms + ms;
  }

  /** Hundredths of a megabyte, to the nearest, halves up. */
  predicate IsMegabytes(hundredths: nat, bytes: nat) {
    2 * 1_048_576 * hundredths <= 200 * bytes + 1_048_576 < 2 * 1_048_576 * (hundredths + 1)
  }

  /** What is reported against the interval's baseline: nothing without one, or in no time; otherwise the rates of
      the totals since, in bytes and megabytes, unless one of them is over 10,000 MB: then nothing, too. */
  ghost predicate ReportsTotals(s: State, key: nat, netIO: seq<Nic>, now: int, sent: nat, recv: nat, report: Report)
    requires key in s.baselines
  {
    var b := s.baselines[key];
    var ms := (now - b.time) % U64;
    && (if ms == 0 then sent == recv == 0
        else IsRate(sent, (SelectedBytes(s.interfaces, netIO, true) - b.sent) % U64, ms)
             && IsRate(recv, (SelectedBytes(s.interfaces, netIO, false) - b.recv) % U64, ms))
    && exists sentPs, recvPs ::
         && IsMegabytes(sentPs, sent) && IsMegabytes(recvPs, recv)
         && if sentPs > 1_000_000 || recvPs > 1_000_000
            then report.sentPs == report.recvPs == 0 && report.bandwidth == (0, 0)
            else report.sentPs == sentPs && report.recvPs == recvPs && report.bandwidth == (sent, recv)
  }

  lemma ReportMeaning(s: State, key: nat, netIO: seq<Nic>, now: int)
    ensures key !in s.baselines ==> ReportOf(s, key, netIO, now).bandwidth == (0, 0)
    ensures key in s.baselines ==>
              ReportsTotals(s, key, netIO, now, SentRate(s, key, netIO, now), RecvRate(s, key, netIO, now), ReportOf(s, key, netIO, now))
  {
    hide TotalSent, TotalRecv, NicReports, PerSecond, SelectedBytes, IsRate;
    TotalsAreSums(s.interfaces, netIO);
    var sent, recv := SentRate(s, key, netIO, now), RecvRate(s, key, netIO, now);
    assert IsMegabytes(Megabytes(sent), sent) && IsMegabytes(Megabytes(recv), recv);
    if key in s.baselines {
      var b := s.baselines[key];
      SubModulo(SelectedBytes(s.interfaces, netIO, true), b.sent);
      SubModulo(SelectedBytes(s.interfaces, netIO, false), b.recv);
      var ms := (now - b.time) % U64;
      if ms > 0 {
        PerSecondIsRate(Sub64(TotalSent(s.interfaces, netIO), b.sent), ms);
        PerSecondIsRate(Sub64(TotalRecv(s.interfaces, netIO), b.recv), ms);
      }
    }
  }

  lemma SubModulo(a: nat, b: Uint64)
    ensures Sub64(a % U64, b) == (a - b) % U64
  {
  }

  /** Exactly the selected interfaces are reported. */
  lemma {:induction false} ReportsSelected(interfaces: set<string>, previous: map<string, Uint64>, netIO: seq<Nic>, ms: Uint64, name: string)
    ensures name in NicReports(interfaces, previous, netIO, ms) <==>
              name in interfaces && exists i :: 0 <= i < |netIO| && netIO[i].name == name
  {
    hide NicRate;
    if netIO != [] {
      var n := |netIO| - 1;
      ReportsSelected(interfaces, previous, netIO[..n], ms, name);
      assert forall i :: 0 <= i < n ==> netIO[i] == netIO[..n][i];
    }
  }

  /** The rate of one counter: a counter that went down has restarted from 0. */
  predicate ReadsCounter(rate: nat, value: nat, before: nat, ms: nat) {
    if ms == 0 then rate == 0
    else if value >= before then IsRate(rate, value - before, ms)
    else IsRate(rate, value, ms)
  }

  lemma NicRateReads(value: Uint64, before: Uint64, ms: Uint64)
    ensures ReadsCounter(NicRate(value, Some(before), ms), value, before, ms)
    ensures NicRate(value, None, ms) == 0
  {
    if ms > 0 { PerSecondIsRate(if value >= before then value - before else value, ms); }
  }

  /** What an interface reports, against its counters in the interval's last sample. */
  lemma InterfaceReads(s: State, samples: seq<Sample>, i: nat, key: nat, b: Baseline, was: nat,
                       netIO: seq<Nic>, now: int, at: nat)
    requires i < |samples| && Stands(s, samples, i, key, b)
    requires var end := After(s, samples);
             Once(samples[i].netIO, was) && Once(netIO, at) && netIO[at].name == samples[i].netIO[was].name
             && netIO[at].name in end.interfaces && netIO[at].name in Ready(After(s, samples[..i]), samples[i]).interfaces
    ensures var end := After(s, samples);
            var nics := ReportOf(end, key, netIO, now).nics;
            var ms := if key in end.baselines then (now - end.baselines[key].time) % U64 else 0;
            netIO[at].name in nics
            && nics[netIO[at].name].sent == netIO[at].sent && nics[netIO[at].name].recv == netIO[at].recv
            && ReadsCounter(nics[netIO[at].name].up, netIO[at].sent, samples[i].netIO[was].sent, ms)
            && ReadsCounter(nics[netIO[at].name].down, netIO[at].recv, samples[i].netIO[was].recv, ms)
  {
    hide NicRate, After, Stands, Rejects, ReportOf, ReadsCounter, Ready;
    InterfaceRateIsOwn(s, samples, i, key, b, was, netIO, now, at);
    var ms := Elapsed(After(s, samples), key, now);
    NicRateReads(netIO[at].sent, samples[i].netIO[was].sent, ms);
    NicRateReads(netIO[at].recv, samples[i].netIO[was].recv, ms);
  }

  /** What an accepted sample leaves as the interval's baseline. */
  lemma SampleBecomesBaseline(s: State, key: nat, netIO: seq<Nic>, now: int, detected: set<string>)
    requires !Rejects(s, key, netIO, now)
    ensures var t := Next(s, key, netIO, now, detected);
            && key in t.baselines && t.interfaces == s.interfaces
            && t.baselines[key].sent == SelectedBytes(s.interfaces, netIO, true) % U64
            && t.baselines[key].recv == SelectedBytes(s.interfaces, netIO, false) % U64
            && t.baselines[key].time == now
            && forall k :: k != key ==> (k in t.baselines <==> k in s.baselines) && (k in s.baselines ==> t.baselines[k] == s.baselines[k])
  {
    hide Rejects, SelectedBytes, TrackNics;
    TotalsAreSums(s.interfaces, netIO);
  }
}
