/** GPU averages (agent/gpu.go): collectors add samples to running totals, and every polling interval
    averages what was added since its own last poll. */
module GpuAverages {
  import opened Options

  const U32: int := 0x1_0000_0000

  type Uint32 = x: int | 0 <= x < U32

  /** Totals and, as an average, the values derived from them. `engines` is None unless the collector
      reports engines. */
  datatype Gpu = Gpu(name: string, temperature: real, memoryUsed: real, memoryTotal: real, usage: real, power: real,
                     powerPkg: real, count: nat, engines: Option<map<string, real>>)

  datatype Snapshot = Snapshot(count: Uint32, usage: real, power: real, powerPkg: real, engines: Option<map<string, real>>)

  datatype State = State(gpus: map<string, Gpu>, averages: map<string, Gpu>, snapshots: map<nat, map<string, Snapshot>>)

  /** Two decimals, half away from zero. */
  function TwoDecimals(x: real): real {
    if x >= 0.0 then (x * 100.0 + 0.5).Floor as real / 100.0 else -((-x * 100.0 + 0.5).Floor as real / 100.0)
  }

  function Max(a: real, b: real): real {
    if a > b then a else b
  }

  // ----- differences

  function SnapshotOf(gpu: Gpu): Snapshot {
    Snapshot(gpu.count % U32, gpu.usage, gpu.power, gpu.powerPkg, gpu.engines)
  }

  function LastSnapshot(s: State, key: nat, id: string): Option<Snapshot> {
    if key in s.snapshots && id in s.snapshots[key] then Some(s.snapshots[key][id]) else None
  }

  function DeltaCount(gpu: Gpu, last: Option<Snapshot>): Uint32 {
    match last
    case Some(snapshot) => (gpu.count % U32 - snapshot.count) % U32
    case None => gpu.count % U32
  }

  function DeltaUsage(gpu: Gpu, last: Option<Snapshot>): real {
    match last case Some(snapshot) => gpu.usage - snapshot.usage case None => gpu.usage
  }

  function DeltaPower(gpu: Gpu, last: Option<Snapshot>): real {
    match last case Some(snapshot) => gpu.power - snapshot.power case None => gpu.power
  }

  function DeltaPowerPkg(gpu: Gpu, last: Option<Snapshot>): real {
    match last case Some(snapshot) => gpu.powerPkg - snapshot.powerPkg case None => gpu.powerPkg
  }

  function EngineAt(engines: Option<map<string, real>>, name: string): real {
    if engines.Some? && name in engines.value then engines.value[name] else 0.0
  }

  function DeltaEngine(gpu: Gpu, last: Option<Snapshot>, name: string): real {
    EngineAt(gpu.engines, name) - match last case Some(snapshot) => EngineAt(snapshot.engines, name) case None => 0.0
  }

  // ----- averages

  function EngineAverages(gpu: Gpu, last: Option<Snapshot>, count: Uint32): map<string, real>
    requires gpu.engines.Some? && count > 0
  {
    map name | name in gpu.engines.value :: TwoDecimals(DeltaEngine(gpu, last, name) / count as real)
  }

  /** The highest of the engines' means, at least 0. */
  ghost predicate HighestEngine(gpu: Gpu, last: Option<Snapshot>, count: Uint32, top: real)
    requires gpu.engines.Some? && count > 0
  {
    && top >= 0.0
    && (forall name :: name in gpu.engines.value ==> DeltaEngine(gpu, last, name) / count as real <= top)
    && (top == 0.0 || exists name :: name in gpu.engines.value && top == DeltaEngine(gpu, last, name) / count as real)
  }

  /** The average over `count` new samples, apart from its usage. */
  function Fresh(gpu: Gpu, last: Option<Snapshot>, count: Uint32): Gpu
    requires count > 0
  {
    var avg := gpu.(power := TwoDecimals(DeltaPower(gpu, last) / count as real));
    if gpu.engines.Some?
    then avg.(engines := Some(EngineAverages(gpu, last, count)), powerPkg := TwoDecimals(DeltaPowerPkg(gpu, last) / count as real))
    else avg
  }

  /** Its usage: the mean, or with engines that of the busiest. */
  ghost predicate IsUsage(gpu: Gpu, last: Option<Snapshot>, count: Uint32, usage: real)
    requires count > 0
  {
    if gpu.engines.Some? then exists top :: HighestEngine(gpu, last, count, top) && usage == TwoDecimals(top)
    else usage == TwoDecimals(DeltaUsage(gpu, last) / count as real)
  }

  const NO_GPU: Gpu := Gpu("", 0.0, 0.0, 0.0, 0.0, 0.0, 0.0, 0, None)

  /** `calculateGPUAverage`, given the last average that any interval computed. */
  ghost predicate IsAverage(gpu: Gpu, last: Option<Snapshot>, lastAvg: Option<Gpu>, avg: Gpu) {
    var count := DeltaCount(gpu, last);
    if count == 0 then
      avg == if gpu.temperature == 0.0 && gpu.memoryUsed == 0.0 then NO_GPU.(name := gpu.name)
             else match lastAvg case Some(a) => a case None => NO_GPU
    else IsUsage(gpu, last, count, avg.usage) && avg == Fresh(gpu, last, count).(usage := avg.usage)
  }

  /** What is reported for an average: current readings, and a name that tells equal cards apart. */
  function Reported(gpu: Gpu, avg: Gpu, id: string, shared: bool): Gpu {
    avg.(temperature := TwoDecimals(gpu.temperature), memoryUsed := TwoDecimals(gpu.memoryUsed),
         memoryTotal := TwoDecimals(gpu.memoryTotal), name := if shared then gpu.name + " " + id else avg.name)
  }

  ghost predicate SharesName(gpus: map<string, Gpu>, id: string)
    requires id in gpus
  {
    exists other :: other in gpus && other != id && gpus[other].name == gpus[id].name
  }

  // ----- as the manager does it

  class GPUManager {
    var gpuDataMap: map<string, Gpu>
    var lastAvgData: map<string, Gpu>
    var lastSnapshots: map<nat, map<string, Snapshot>>

    function Value(): State
      reads this
    {
      State(gpuDataMap, lastAvgData, lastSnapshots)
    }

    constructor ()
      ensures Value() == State(map[], map[], map[])
    {
      gpuDataMap, lastAvgData, lastSnapshots := map[], map[], map[];
    }

    method CalculateIntelGPUUsage(gpu: Gpu, last: Option<Snapshot>, deltaCount: Uint32)
        returns (engines: map<string, real>, usage: real)
      requires gpu.engines.Some? && deltaCount > 0
      ensures engines == EngineAverages(gpu, last, deltaCount)
      ensures exists top :: HighestEngine(gpu, last, deltaCount, top) && usage == TwoDecimals(top)
    {
      hide TwoDecimals, DeltaEngine;
      engines := map[];
      var maxEngineUsage := 0.0;
      var names := gpu.engines.value.Keys;
      while names != {}
        invariant names <= gpu.engines.value.Keys && engines.Keys == gpu.engines.value.Keys - names
        invariant forall name :: name in engines ==> engines[name] == TwoDecimals(DeltaEngine(gpu, last, name) / deltaCount as real)
        invariant maxEngineUsage >= 0.0
        invariant forall name :: name in engines ==> DeltaEngine(gpu, last, name) / deltaCount as real <= maxEngineUsage
        invariant maxEngineUsage == 0.0
               || exists name :: name in engines && maxEngineUsage == DeltaEngine(gpu, last, name) / deltaCount as real
        decreases names
      {
        var name :| name in names;
        var mean := DeltaEngine(gpu, last, name) / deltaCount as real;
        engines := engines[name := TwoDecimals(mean)];
        maxEngineUsage := Max(maxEngineUsage, mean);
        names := names - {name};
      }
      usage := TwoDecimals(maxEngineUsage);
      assert HighestEngine(gpu, last, deltaCount, maxEngineUsage);
    }

    method CalculateGPUAverage(id: string, gpu: Gpu, cacheKey: nat) returns (avg: Gpu)
      modifies this`lastAvgData
      ensures var last := LastSnapshot(old(Value()), cacheKey, id);
              && IsAverage(gpu, last, if id in old(lastAvgData) then Some(old(lastAvgData)[id]) else None, avg)
              && lastAvgData == if DeltaCount(gpu, last) == 0 then old(lastAvgData) else old(lastAvgData)[id := avg]
    {
      hide TwoDecimals, DeltaCount, DeltaUsage, DeltaPower, DeltaPowerPkg, EngineAverages, HighestEngine;
      var last := LastSnapshot(Value(), cacheKey, id);
      var deltaCount := DeltaCount(gpu, last);
      if deltaCount == 0 {
        if gpu.temperature == 0.0 && gpu.memoryUsed == 0.0 {
          return NO_GPU.(name := gpu.name);
        }
        return if id in lastAvgData then lastAvgData[id] else NO_GPU;
      }
      avg := gpu;
      avg := avg.(power := TwoDecimals(DeltaPower(gpu, last) / deltaCount as real));
      if gpu.engines.Some? {
        var engines, usage := CalculateIntelGPUUsage(gpu, last, deltaCount);
        avg := avg.(engines := Some(engines), usage := usage);
        avg := avg.(powerPkg := TwoDecimals(DeltaPowerPkg(gpu, last) / deltaCount as real));
      } else {
        avg := avg.(usage := TwoDecimals(DeltaUsage(gpu, last) / deltaCount as real));
      }
      lastAvgData := lastAvgData[id := avg];
    }

    /** Another card has the same name. */
    method CountsTwice(id: string) returns (shared: bool)
      requires id in gpuDataMap
      ensures shared == SharesName(gpuDataMap, id)
    {
      shared := false;
      var ids := gpuDataMap.Keys - {id};
      while ids != {}
        invariant ids <= gpuDataMap.Keys - {id}
        invariant shared == exists other :: other in gpuDataMap.Keys - {id} - ids && gpuDataMap[other].name == gpuDataMap[id].name
        decreases ids
      {
        var other :| other in ids;
        shared := shared || gpuDataMap[other].name == gpuDataMap[id].name;
        ids := ids - {other};
      }
    }

    /** One card of a poll. */
    method PollGPU(id: string, cacheKey: nat) returns (data: Gpu)
      requires id in gpuDataMap && cacheKey in lastSnapshots
      modifies this`lastAvgData, this`lastSnapshots
      ensures PolledFrom(old(Value()), cacheKey, id, data)
      ensures lastAvgData.Keys <= old(lastAvgData).Keys + {id}
      ensures forall other :: other != id && other in old(lastAvgData) ==> other in lastAvgData && lastAvgData[other] == old(lastAvgData)[other]
      ensures lastSnapshots == old(lastSnapshots)[cacheKey := old(lastSnapshots)[cacheKey][id := SnapshotOf(gpuDataMap[id])]]
    {
      hide IsAverage, DeltaCount, TwoDecimals;
      var gpu := gpuDataMap[id];
      var avg := CalculateGPUAverage(id, gpu, cacheKey);
      lastSnapshots := lastSnapshots[cacheKey := lastSnapshots[cacheKey][id := SnapshotOf(gpu)]];
      var shared := CountsTwice(id);
      data := Reported(gpu, avg, id, shared);
    }

    method GetCurrentData(cacheKey: nat) returns (gpuData: map<string, Gpu>)
      modifies this`lastAvgData, this`lastSnapshots
      ensures gpuData.Keys == gpuDataMap.Keys
      ensures forall id :: id in gpuData ==> PolledFrom(old(Value()), cacheKey, id, gpuData[id])
      ensures lastSnapshots == Polled(old(Value()), cacheKey)
    {
      hide PolledFrom, SnapshotOf, Renewed, LastSnapshot;
      ghost var was := Value();
      if cacheKey !in lastSnapshots {
        lastSnapshots := lastSnapshots[cacheKey := map[]];
      }
      gpuData := map[];
      var ids := gpuDataMap.Keys;
      NoneRenewed(was, cacheKey);
      while ids != {}
        invariant ids <= gpuDataMap.Keys && gpuData.Keys == gpuDataMap.Keys - ids
        invariant forall id :: id in gpuData ==> PolledFrom(was, cacheKey, id, gpuData[id])
        invariant lastSnapshots == Renewed(was, cacheKey, gpuDataMap.Keys - ids)
        invariant forall id :: id in ids ==>
                    (id in lastAvgData <==> id in was.averages) && (id in was.averages ==> lastAvgData[id] == was.averages[id])
        decreases ids
      {
        var id :| id in ids;
        ghost var s := Value();
        RenewedNext(s, was, cacheKey, gpuDataMap.Keys - ids, id);
        var data := PollGPU(id, cacheKey);
        SameInputs(was, s, cacheKey, id, data);
        assert gpuDataMap.Keys - (ids - {id}) == gpuDataMap.Keys - ids + {id};
        gpuData := gpuData[id := data];
        ids := ids - {id};
      }
      assert gpuDataMap.Keys - ids == gpuDataMap.Keys;
      AllRenewed(was, cacheKey);
    }
  }

  /** The snapshots once these cards are polled. */
  function Renewed(s: State, key: nat, done: set<string>): map<nat, map<string, Snapshot>>
    requires done <= s.gpus.Keys
  {
    var before := if key in s.snapshots then s.snapshots[key] else map[];
    s.snapshots[key := before + map id | id in done :: SnapshotOf(s.gpus[id])]
  }

  lemma NoneRenewed(s: State, key: nat)
    ensures var before := if key in s.snapshots then s.snapshots[key] else map[];
            Renewed(s, key, {}) == s.snapshots[key := before]
    ensures key in s.snapshots ==> Renewed(s, key, {}) == s.snapshots
    ensures s.gpus.Keys - s.gpus.Keys == {}
  {
    var before := if key in s.snapshots then s.snapshots[key] else map[];
    assert Renewed(s, key, {})[key] == before;
  }

  lemma RenewedNext(t: State, s: State, key: nat, done: set<string>, id: string)
    requires done <= s.gpus.Keys && id in s.gpus && id !in done && t.snapshots == Renewed(s, key, done) && t.gpus == s.gpus
    ensures key in t.snapshots && LastSnapshot(t, key, id) == LastSnapshot(s, key, id)
    ensures t.snapshots[key := t.snapshots[key][id := SnapshotOf(s.gpus[id])]] == Renewed(s, key, done + {id})
  {
    assert t.snapshots[key][id := SnapshotOf(s.gpus[id])] == Renewed(s, key, done + {id})[key];
  }

  lemma AllRenewed(s: State, key: nat)
    ensures Renewed(s, key, s.gpus.Keys) == Polled(s, key)
  {
    assert Renewed(s, key, s.gpus.Keys)[key] == Polled(s, key)[key];
  }

  /** What the poll returns for the card. */
  ghost predicate PolledFrom(s: State, key: nat, id: string, data: Gpu) {
    id in s.gpus &&
    exists avg ::
      IsAverage(s.gpus[id], LastSnapshot(s, key, id), if id in s.averages then Some(s.averages[id]) else None, avg)
      && data == Reported(s.gpus[id], avg, id, SharesName(s.gpus, id))
  }

  lemma SameInputs(s: State, t: State, key: nat, id: string, data: Gpu)
    requires s.gpus == t.gpus && LastSnapshot(s, key, id) == LastSnapshot(t, key, id)
    requires (id in s.averages <==> id in t.averages) && (id in s.averages ==> s.averages[id] == t.averages[id])
    ensures PolledFrom(t, key, id, data) == PolledFrom(s, key, id, data)
  {
    hide IsAverage, Reported;
  }

  /** The snapshots after a poll: every card's is renewed under this interval, and under no other. */
  function Polled(s: State, key: nat): map<nat, map<string, Snapshot>> {
    var before := if key in s.snapshots then s.snapshots[key] else map[];
    s.snapshots[key := before + map id | id in s.gpus :: SnapshotOf(s.gpus[id])]
  }

  // ----- runs

  /** A collected sample, or a poll under an interval. */
  datatype Event =
    | Sample(id: string, usage: real, power: real, powerPkg: real, engines: Option<map<string, real>>)
    | Poll(key: nat)

  function AddEngines(engines: Option<map<string, real>>, sample: Option<map<string, real>>): Option<map<string, real>> {
    match sample
    case None => engines
    case Some(e) =>
      var before := match engines case Some(b) => b case None => map[];
      Some(map name | name in before.Keys + e.Keys :: EngineAt(Some(before), name) + EngineAt(sample, name))
  }

  function Collected(gpu: Gpu, e: Event): Gpu
    requires e.Sample?
  {
    gpu.(usage := gpu.usage + e.usage, power := gpu.power + e.power, powerPkg := gpu.powerPkg + e.powerPkg,
         count := gpu.count + 1, engines := AddEngines(gpu.engines, e.engines))
  }

  function GpuAt(s: State, id: string): Gpu {
    if id in s.gpus then s.gpus[id] else NO_GPU
  }

  /** A poll's averages stay with the reported data and are not followed here. */
  function Step(s: State, e: Event): State {
    match e
    case Sample(id, _, _, _, _) => s.(gpus := s.gpus[id := Collected(GpuAt(s, id), e)])
    case Poll(key) => s.(snapshots := Polled(s, key))
  }

  function After(es: seq<Event>): State {
    var n := |es| - 1;
    if es == [] then State(map[], map[], map[]) else Step(After(es[..n]), es[n])
  }

  /** The samples of a card since the interval's last poll. */
  function Since(es: seq<Event>, key: nat, id: string): seq<Event> {
    var n := |es| - 1;
    if es == [] then []
    else
      match es[n]
      case Poll(k) => if k == key then [] else Since(es[..n], key, id)
      case Sample(i, _, _, _, _) => Since(es[..n], key, id) + if i == id then [es[n]] else []
  }

  function SumUsage(samples: seq<Event>): real {
    var n := |samples| - 1;
    if samples == [] then 0.0 else SumUsage(samples[..n]) + match samples[n] case Sample(_, u, _, _, _) => u case Poll(_) => 0.0
  }

  function SumPower(samples: seq<Event>): real {
    var n := |samples| - 1;
    if samples == [] then 0.0 else SumPower(samples[..n]) + match samples[n] case Sample(_, _, p, _, _) => p case Poll(_) => 0.0
  }

  function SumPowerPkg(samples: seq<Event>): real {
    var n := |samples| - 1;
    if samples == [] then 0.0 else SumPowerPkg(samples[..n]) + match samples[n] case Sample(_, _, _, p, _) => p case Poll(_) => 0.0
  }

  function SumEngine(samples: seq<Event>, name: string): real {
    var n := |samples| - 1;
    if samples == [] then 0.0
    else SumEngine(samples[..n], name) + match samples[n] case Sample(_, _, _, _, e) => EngineAt(e, name) case Poll(_) => 0.0
  }

  lemma ModShift32(v: int, k: int)
    ensures (v + k * U32) % U32 == v % U32
  {
    var q := (v + k * U32) / U32;
    assert v + k * U32 == q * U32 + (v + k * U32) % U32;
    assert v == (q - k) * U32 + (v + k * U32) % U32;
  }

  lemma ModNext(count: nat, snapshot: int, n: nat)
    requires (count % U32 - snapshot) % U32 == n % U32
    ensures ((count + 1) % U32 - snapshot) % U32 == (n + 1) % U32
  {
    var x := count % U32 - snapshot;
    ModShift32(x + 1, (count % U32 + 1 - (count + 1) % U32) / -U32);
    ModShift32(count % U32 + 1, count / U32);
    assert count + 1 == count % U32 + 1 + count / U32 * U32;
    var k := (count + 1) / U32 - count / U32;
    assert (count + 1) % U32 == count % U32 + 1 - k * U32;
    ModShift32(x + 1, -k);
    ModSucc(x, n);
  }

  lemma ModSucc(x: int, n: int)
    requires x % U32 == n % U32
    ensures (x + 1) % U32 == (n + 1) % U32
  {
    var k := x / U32 - n / U32;
    assert x == n + k * U32;
    ModShift32(n + 1, k);
  }

  /** What is to be averaged at the interval's next poll. */
  predicate Due(gpu: Gpu, last: Option<Snapshot>, samples: seq<Event>) {
    && DeltaCount(gpu, last) == |samples| % U32
    && DeltaUsage(gpu, last) == SumUsage(samples)
    && DeltaPower(gpu, last) == SumPower(samples)
    && DeltaPowerPkg(gpu, last) == SumPowerPkg(samples)
  }

  ghost predicate EnginesDue(gpu: Gpu, last: Option<Snapshot>, samples: seq<Event>) {
    forall name :: DeltaEngine(gpu, last, name) == SumEngine(samples, name)
  }

  lemma DueNext(gpu: Gpu, last: Option<Snapshot>, samples: seq<Event>, e: Event)
    requires Due(gpu, last, samples) && e.Sample?
    ensures Due(Collected(gpu, e), last, samples + [e])
  {
    assert (samples + [e])[..|samples|] == samples;
    match last
    case Some(snapshot) => ModNext(gpu.count, snapshot.count, |samples|);
    case None => ModNext(gpu.count, 0, |samples|);
  }

  lemma EnginesDueNext(gpu: Gpu, last: Option<Snapshot>, samples: seq<Event>, e: Event)
    requires EnginesDue(gpu, last, samples) && e.Sample?
    ensures EnginesDue(Collected(gpu, e), last, samples + [e])
  {
    assert (samples + [e])[..|samples|] == samples;
    forall name ensures DeltaEngine(Collected(gpu, e), last, name) == SumEngine(samples + [e], name) {
      assert DeltaEngine(gpu, last, name) == SumEngine(samples, name);
    }
  }

  lemma DueAtPoll(gpu: Gpu)
    ensures Due(gpu, Some(SnapshotOf(gpu)), []) && EnginesDue(gpu, Some(SnapshotOf(gpu)), [])
    ensures Due(NO_GPU, None, []) && EnginesDue(NO_GPU, None, [])
  {
  }

  /** At any time, the difference to an interval's snapshot is what was collected since that interval's
      last poll, whatever was polled under other intervals. */
  lemma {:induction false} DifferencesAreOwnSamples(es: seq<Event>, key: nat, id: string)
    ensures var s := After(es);
            && (LastSnapshot(s, key, id).Some? ==> id in s.gpus)
            && Due(GpuAt(s, id), LastSnapshot(s, key, id), Since(es, key, id))
            && EnginesDue(GpuAt(s, id), LastSnapshot(s, key, id), Since(es, key, id))
  {
    hide Due, EnginesDue, SnapshotOf, Collected;
    if es == [] {
      DueAtPoll(NO_GPU);
    } else {
      var n := |es| - 1;
      DifferencesAreOwnSamples(es[..n], key, id);
      var before := After(es[..n]);
      var samples := Since(es[..n], key, id);
      var last := LastSnapshot(before, key, id);
      assert samples + [] == samples;
      match es[n]
      case Sample(i, _, _, _, _) =>
        if i == id {
          DueNext(GpuAt(before, id), last, samples, es[n]);
          EnginesDueNext(GpuAt(before, id), last, samples, es[n]);
        }
      case Poll(k) =>
        DueAtPoll(GpuAt(before, id));
        AfterPoll(before, k, key, id);
    }
  }

  lemma AfterPoll(s: State, k: nat, key: nat, id: string)
    ensures LastSnapshot(Step(s, Poll(k)), key, id)
         == if k == key && id in s.gpus then Some(SnapshotOf(s.gpus[id])) else LastSnapshot(s, key, id)
  {
  }

  /** The average is the mean of the samples: of power, and of usage or, with engines, of each engine,
      usage being that of the busiest. */
  ghost predicate IsMean(avg: Gpu, samples: seq<Event>, count: real)
    requires count > 0.0
  {
    && avg.power == TwoDecimals(SumPower(samples) / count)
    && match avg.engines
       case None => avg.usage == TwoDecimals(SumUsage(samples) / count)
       case Some(engines) => avg.powerPkg == TwoDecimals(SumPowerPkg(samples) / count) && BusiestEngine(samples, count, engines, avg.usage)
  }

  lemma BusiestOfDifferences(gpu: Gpu, last: Option<Snapshot>, samples: seq<Event>, top: real, engines: map<string, real>)
    requires gpu.engines.Some? && 0 < |samples| < U32 && EnginesDue(gpu, last, samples)
    requires HighestEngine(gpu, last, |samples|, top) && engines == EngineAverages(gpu, last, |samples|)
    ensures Busiest(samples, |samples| as real, engines, top)
  {
    hide TwoDecimals, DeltaEngine, SumEngine;
    forall name | name in engines
      ensures engines[name] == TwoDecimals(SumEngine(samples, name) / |samples| as real)
      ensures SumEngine(samples, name) / |samples| as real <= top
    {
      assert DeltaEngine(gpu, last, name) == SumEngine(samples, name);
    }
    if top != 0.0 {
      var name :| name in gpu.engines.value && top == DeltaEngine(gpu, last, name) / |samples| as real;
      assert DeltaEngine(gpu, last, name) == SumEngine(samples, name);
      assert name in engines;
    }
  }

  lemma MeanOfDue(gpu: Gpu, last: Option<Snapshot>, samples: seq<Event>, lastAvg: Option<Gpu>, avg: Gpu)
    requires Due(gpu, last, samples) && EnginesDue(gpu, last, samples) && 0 < |samples| < U32
    requires IsAverage(gpu, last, lastAvg, avg)
    ensures IsMean(avg, samples, |samples| as real)
  {
    hide TwoDecimals, DeltaEngine, DeltaCount, DeltaUsage, DeltaPower, DeltaPowerPkg, EnginesDue, HighestEngine, Busiest, EngineAverages;
    if gpu.engines.Some? {
      var top :| HighestEngine(gpu, last, |samples|, top) && avg.usage == TwoDecimals(top);
      BusiestOfDifferences(gpu, last, samples, top, avg.engines.value);
    }
  }

  /** A poll reports the mean of the samples collected since the interval's last poll. */
  lemma AverageIsOwnMean(es: seq<Event>, key: nat, id: string, lastAvg: Option<Gpu>, avg: Gpu)
    requires IsAverage(GpuAt(After(es), id), LastSnapshot(After(es), key, id), lastAvg, avg)
    requires 0 < |Since(es, key, id)| < U32
    ensures IsMean(avg, Since(es, key, id), |Since(es, key, id)| as real)
  {
    hide Due, EnginesDue, IsAverage, IsMean;
    DifferencesAreOwnSamples(es, key, id);
    MeanOfDue(GpuAt(After(es), id), LastSnapshot(After(es), key, id), Since(es, key, id), lastAvg, avg);
  }

  ghost predicate Busiest(samples: seq<Event>, count: real, engines: map<string, real>, top: real)
    requires count > 0.0
  {
    && top >= 0.0
    && (forall name :: name in engines ==> engines[name] == TwoDecimals(SumEngine(samples, name) / count)
                                           && SumEngine(samples, name) / count <= top)
    && (top == 0.0 || exists name :: name in engines && top == SumEngine(samples, name) / count)
  }

  ghost predicate BusiestEngine(samples: seq<Event>, count: real, engines: map<string, real>, usage: real)
    requires count > 0.0
  {
    exists top :: Busiest(samples, count, engines, top) && usage == TwoDecimals(top)
  }

  // ----- exactly once

  /** All samples of a card. */
  function SamplesOf(es: seq<Event>, id: string): seq<Event> {
    var n := |es| - 1;
    if es == [] then [] else SamplesOf(es[..n], id) + if es[n].Sample? && es[n].id == id then [es[n]] else []
  }

  /** The usage that the interval's polls have averaged, added up: a poll that counts nothing new reports an
      earlier average instead. */
  function PolledUsage(es: seq<Event>, key: nat, id: string): real {
    var n := |es| - 1;
    if es == [] then 0.0
    else
      var before := After(es[..n]);
      var gpu, last := GpuAt(before, id), LastSnapshot(before, key, id);
      PolledUsage(es[..n], key, id) + if es[n] == Poll(key) && DeltaCount(gpu, last) != 0 then DeltaUsage(gpu, last) else 0.0
  }

  /** The usage of samples passed over by polls of the interval, because their number wraps to 0. */
  function LostUsage(es: seq<Event>, key: nat, id: string): real {
    var n := |es| - 1;
    if es == [] then 0.0
    else
      var samples := Since(es[..n], key, id);
      LostUsage(es[..n], key, id) + if es[n] == Poll(key) && |samples| % U32 == 0 then SumUsage(samples) else 0.0
  }

  /** The interval is polled before 2^32 samples of the card have come in since its last poll. */
  ghost predicate PolledInTime(es: seq<Event>, key: nat, id: string) {
    forall n: nat :: n < |es| ==> |Since(es[..n], key, id)| < U32
  }

  lemma {:induction false} NothingLost(es: seq<Event>, key: nat, id: string)
    requires PolledInTime(es, key, id)
    ensures LostUsage(es, key, id) == 0.0
  {
    if es != [] {
      var m := |es| - 1;
      forall n: nat | n < m ensures |Since(es[..m][..n], key, id)| < U32 {
        assert es[..m][..n] == es[..n];
      }
      NothingLost(es[..m], key, id);
      assert |Since(es[..m], key, id)| < U32;
    }
  }

  /** The samples that the interval's polls have counted, added up. */
  function PolledCount(es: seq<Event>, key: nat, id: string): nat {
    var n := |es| - 1;
    if es == [] then 0
    else
      var before := After(es[..n]);
      PolledCount(es[..n], key, id) + if es[n] == Poll(key) then DeltaCount(GpuAt(before, id), LastSnapshot(before, key, id)) else 0
  }

  lemma SumUsageAppend(samples: seq<Event>, e: Event)
    requires e.Sample?
    ensures SumUsage(samples + [e]) == SumUsage(samples) + e.usage
  {
    assert (samples + [e])[..|samples|] == samples;
  }

  /** What an interval's polls have averaged, what they have lost, and what is still to come are all that
      was collected, whatever is polled under other intervals. */
  lemma {:induction false} SamplesAreAccountedFor(es: seq<Event>, key: nat, id: string)
    ensures PolledUsage(es, key, id) + LostUsage(es, key, id) + SumUsage(Since(es, key, id)) == SumUsage(SamplesOf(es, id))
  {
    hide DeltaCount, DeltaUsage, DeltaPower, DeltaPowerPkg, EnginesDue, Collected, Polled;
    if es != [] {
      var n := |es| - 1;
      SamplesAreAccountedFor(es[..n], key, id);
      DifferencesAreOwnSamples(es[..n], key, id);
      var since, all := Since(es[..n], key, id), SamplesOf(es[..n], id);
      assert since + [] == since && all + [] == all;
      if es[n].Sample? && es[n].id == id {
        SumUsageAppend(since, es[n]);
        SumUsageAppend(all, es[n]);
      }
    }
  }

  /** Polled in time, an interval averages every sample exactly once. */
  lemma EverySampleAveragedOnce(es: seq<Event>, key: nat, id: string)
    requires PolledInTime(es, key, id)
    ensures PolledUsage(es, key, id) + SumUsage(Since(es, key, id)) == SumUsage(SamplesOf(es, id))
  {
    SamplesAreAccountedFor(es, key, id);
    NothingLost(es, key, id);
  }

  /** And every sample is counted exactly once. */
  lemma {:induction false} EverySampleCountedOnce(es: seq<Event>, key: nat, id: string)
    ensures (PolledCount(es, key, id) + |Since(es, key, id)|) % U32 == |SamplesOf(es, id)| % U32
    ensures |SamplesOf(es, id)| < U32 ==> PolledCount(es, key, id) + |Since(es, key, id)| == |SamplesOf(es, id)|
  {
    hide DeltaCount, DeltaUsage, DeltaPower, DeltaPowerPkg, EnginesDue, Collected, Polled;
    if es != [] {
      var n := |es| - 1;
      EverySampleCountedOnce(es[..n], key, id);
      DifferencesAreOwnSamples(es[..n], key, id);
      var since, all := Since(es[..n], key, id), SamplesOf(es[..n], id);
      match es[n]
      case Sample(i, _, _, _, _) =>
        ModSucc(PolledCount(es[..n], key, id) + |since|, |all|);
      case Poll(k) =>
        CountedAtPoll(PolledCount(es[..n], key, id), |since|);
    }
  }

  lemma CountedAtPoll(polled: int, n: nat)
    ensures (polled + n % U32) % U32 == (polled + n) % U32
  {
    ModShift32(polled + n % U32, n / U32);
    assert n == n % U32 + n / U32 * U32;
  }

  // ----- what a poll returns

  /** A number of hundredths, no more than half a hundredth from the value; halves go away from zero. */
  predicate IsTwoDecimals(r: real, x: real) {
    && (r * 100.0).Floor as real == r * 100.0
    && x - 0.005 <= r <= x + 0.005
    && (x >= 0.0 ==> x - 0.005 < r) && (x < 0.0 ==> r < x + 0.005)
  }

  lemma HundredthsOf(n: int, r: real)
    requires r == n as real / 100.0
    ensures r * 100.0 == n as real && (r * 100.0).Floor as real == r * 100.0
  {
  }

  lemma RoundsUp(x: real) returns (n: int)
    requires x >= 0.0
    ensures (x * 100.0 + 0.5).Floor == n && n as real / 100.0 <= x + 0.005 && x - 0.005 < n as real / 100.0
  {
    n := (x * 100.0 + 0.5).Floor;
    assert n as real <= x * 100.0 + 0.5 < n as real + 1.0;
  }

  lemma TwoDecimalsMeaning(x: real)
    ensures IsTwoDecimals(TwoDecimals(x), x)
  {
    if x >= 0.0 {
      var n := RoundsUp(x);
      HundredthsOf(n, TwoDecimals(x));
    } else {
      var n := RoundsUp(-x);
      HundredthsOf(-n, TwoDecimals(x));
    }
  }

  /** A poll returns the card's present temperature and memory, to two decimals. A card that shares its name is
      told apart by its id; another with new samples keeps its name. */
  lemma PollReturnsReadings(s: State, key: nat, id: string, data: Gpu)
    requires PolledFrom(s, key, id, data)
    ensures IsTwoDecimals(data.temperature, s.gpus[id].temperature)
    ensures IsTwoDecimals(data.memoryUsed, s.gpus[id].memoryUsed) && IsTwoDecimals(data.memoryTotal, s.gpus[id].memoryTotal)
    ensures if exists other :: other in s.gpus && other != id && s.gpus[other].name == s.gpus[id].name
            then data.name == s.gpus[id].name + " " + id
            else DeltaCount(s.gpus[id], LastSnapshot(s, key, id)) != 0 ==> data.name == s.gpus[id].name
  {
    hide TwoDecimals, IsTwoDecimals;
    TwoDecimalsMeaning(s.gpus[id].temperature);
    TwoDecimalsMeaning(s.gpus[id].memoryUsed);
    TwoDecimalsMeaning(s.gpus[id].memoryTotal);
  }

  /** Cards of one name are returned under different names. */
  lemma PollTellsApart(s: State, key: nat, a: string, b: string, first: Gpu, second: Gpu)
    requires PolledFrom(s, key, a, first) && PolledFrom(s, key, b, second)
    requires a != b && s.gpus[a].name == s.gpus[b].name
    ensures first.name != second.name
  {
    hide IsTwoDecimals;
    PollReturnsReadings(s, key, a, first);
    PollReturnsReadings(s, key, b, second);
    var n := s.gpus[a].name + " ";
    assert first.name[|n|..] == a && second.name[|n|..] == b;
  }

  /** With no new samples for the interval, a card without a temperature and memory in use counts as suspended and
      reads 0 throughout; any other returns the last average that any interval computed. */
  lemma PollWithoutSamples(es: seq<Event>, key: nat, id: string, lastAvg: Option<Gpu>, avg: Gpu)
    requires IsAverage(GpuAt(After(es), id), LastSnapshot(After(es), key, id), lastAvg, avg)
    requires |Since(es, key, id)| % U32 == 0
    ensures var gpu := GpuAt(After(es), id);
            if gpu.temperature == 0.0 && gpu.memoryUsed == 0.0
            then avg == Gpu(gpu.name, 0.0, 0.0, 0.0, 0.0, 0.0, 0.0, 0, None)
            else lastAvg.Some? ==> avg == lastAvg.value
  {
    hide EnginesDue;
    DifferencesAreOwnSamples(es, key, id);
  }
}
