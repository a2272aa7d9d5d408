/** Container network rates (agent/docker.go): differences from one tracker for each polling interval,
    divided by the time since the container was last read. */
module DockerNetwork {
  import opened Options
  import opened DeltaTracking
  import opened NetworkRates

  const MAX_NETWORK_SPEED_BPS: int := 5_000_000_000

  /** A difference as a speed, 0 when implausible. */
  function Speed(raw: Uint64, ms: Uint64): Uint64 {
    if ms > 0 && raw > 0 && PerSecond(raw, ms) <= MAX_NETWORK_SPEED_BPS then PerSecond(raw, ms) else 0
  }

  // ----- as the manager does it

  /** No two intervals share a tracker. */
  ghost predicate Apart(trackers: map<nat, DeltaTracker>) {
    forall j, k :: j in trackers && k in trackers && j != k ==> trackers[j] != trackers[k]
  }

  ghost function Contents(trackers: map<nat, DeltaTracker>): map<nat, Tracker>
    reads trackers.Values
  {
    map k | k in trackers :: trackers[k].Value()
  }

  /** The tracker for an interval, created when missing. */
  method GetNetworkTracker(trackers: map<nat, DeltaTracker>, cacheTimeMs: nat)
      returns (updated: map<nat, DeltaTracker>, tracker: DeltaTracker)
    requires Apart(trackers)
    ensures Apart(updated) && updated == trackers[cacheTimeMs := tracker]
    ensures if cacheTimeMs in trackers then tracker == trackers[cacheTimeMs] else fresh(tracker)
    ensures tracker.Value() == TrackerAt(Contents(trackers), cacheTimeMs)
  {
    updated := trackers;
    if cacheTimeMs !in trackers {
      tracker := new DeltaTracker();
      updated := updated[cacheTimeMs := tracker];
    } else {
      tracker := trackers[cacheTimeMs];
    }
  }

  /** One direction: the total is set on the interval's tracker and its difference read. */
  method TrackTotal(trackers: map<nat, DeltaTracker>, id: string, total: Uint64, cacheTimeMs: nat)
      returns (updated: map<nat, DeltaTracker>, raw: Uint64)
    requires Apart(trackers)
    modifies trackers.Values
    ensures Apart(updated) && Contents(updated) == Apply(old(Contents(trackers)), Set(cacheTimeMs, id, total))
    ensures fresh(updated.Values - trackers.Values)
    ensures raw == DeltaAt(TrackerAt(Contents(updated), cacheTimeMs), id)
  {
    var tracker: DeltaTracker;
    updated, tracker := GetNetworkTracker(trackers, cacheTimeMs);
    tracker.Set(id, total);
    raw := tracker.Delta(id);
  }

  /** One direction: the interval's tracker, if there is one, starts the next interval. */
  method CycleTracker(trackers: map<nat, DeltaTracker>, cacheTimeMs: nat)
    requires Apart(trackers)
    modifies trackers.Values
    ensures Contents(trackers) == CycleAt(old(Contents(trackers)), cacheTimeMs)
  {
    if cacheTimeMs in trackers {
      trackers[cacheTimeMs].Cycle();
    }
  }

  class DockerManager {
    var networkSentTrackers: map<nat, DeltaTracker>
    var networkRecvTrackers: map<nat, DeltaTracker>
    /** When a container was last read (milliseconds), whatever the polling interval. */
    var prevReadTime: map<string, int>

    /** No two intervals or directions share a tracker. */
    ghost predicate Valid()
      reads this
    {
      Apart(networkSentTrackers) && Apart(networkRecvTrackers) && networkSentTrackers.Values !! networkRecvTrackers.Values
    }

    constructor ()
      ensures Valid() && networkSentTrackers == map[] && networkRecvTrackers == map[] && prevReadTime == map[]
    {
      networkSentTrackers, networkRecvTrackers, prevReadTime := map[], map[], map[];
    }

    /** After every poll, the trackers of its interval start the next one. */
    method CycleNetworkDeltasForCacheTime(cacheTimeMs: nat)
      requires Valid()
      modifies networkSentTrackers.Values, networkRecvTrackers.Values
      ensures Valid()
      ensures Contents(networkSentTrackers) == CycleAt(old(Contents(networkSentTrackers)), cacheTimeMs)
      ensures Contents(networkRecvTrackers) == CycleAt(old(Contents(networkRecvTrackers)), cacheTimeMs)
    {
      hide CycleAt, Contents, Apart;
      CycleTracker(networkSentTrackers, cacheTimeMs);
      CycleTracker(networkRecvTrackers, cacheTimeMs);
    }

    /** `initialized` in the source says that the container was read before; its read time is then known. */
    method SpeedSince(id: string, raw: Uint64, now: int) returns (delta: Uint64)
      ensures delta == if id in prevReadTime then Speed(raw, (now - prevReadTime[id]) % U64) else 0
    {
      delta := 0;
      if id in prevReadTime {
        var millisecondsElapsed: Uint64 := (now - prevReadTime[id]) % U64;
        if millisecondsElapsed > 0 && raw > 0 {
          delta := PerSecond(raw, millisecondsElapsed);
          if delta > MAX_NETWORK_SPEED_BPS {
            delta := 0;
          }
        }
      }
    }

    method CalculateNetworkStats(id: string, totalSent: Uint64, totalRecv: Uint64, cacheTimeMs: nat, now: int)
        returns (sentDelta: Uint64, recvDelta: Uint64)
      requires Valid()
      modifies this`networkSentTrackers, this`networkRecvTrackers, networkSentTrackers.Values, networkRecvTrackers.Values
      ensures Valid()
      ensures Contents(networkSentTrackers) == Apply(old(Contents(networkSentTrackers)), Set(cacheTimeMs, id, totalSent))
      ensures Contents(networkRecvTrackers) == Apply(old(Contents(networkRecvTrackers)), Set(cacheTimeMs, id, totalRecv))
      ensures sentDelta == ReportedSpeed(Contents(networkSentTrackers), prevReadTime, cacheTimeMs, id, now)
      ensures recvDelta == ReportedSpeed(Contents(networkRecvTrackers), prevReadTime, cacheTimeMs, id, now)
    {
      hide Speed, Apply, DeltaAt, TrackerAt, Apart, Contents;
      var sent, sentRaw := TrackTotal(networkSentTrackers, id, totalSent, cacheTimeMs);
      var recv, recvRaw := TrackTotal(networkRecvTrackers, id, totalRecv, cacheTimeMs);
      networkSentTrackers, networkRecvTrackers := sent, recv;
      sentDelta := SpeedSince(id, sentRaw, now);
      recvDelta := SpeedSince(id, recvRaw, now);
    }

    ghost function Value(): DockerState
      reads this, networkSentTrackers.Values, networkRecvTrackers.Values
    {
      DockerState(Contents(networkSentTrackers), Contents(networkRecvTrackers), prevReadTime)
    }

    method StoreReadTime(id: string, readTime: int)
      modifies this`prevReadTime
      ensures prevReadTime == old(prevReadTime)[id := readTime]
    {
      prevReadTime := prevReadTime[id := readTime];
    }

    /** One container of a poll; `readTime` is when Docker took its reading. */
    method UpdateContainerStats(cacheTimeMs: nat, id: string, totalSent: Uint64, totalRecv: Uint64, readTime: int, now: int)
        returns (sentDelta: Uint64, recvDelta: Uint64)
      requires Valid()
      modifies this, networkSentTrackers.Values, networkRecvTrackers.Values
      ensures Valid()
      ensures Value() == Step(old(Value()), Read(cacheTimeMs, id, totalSent, totalRecv, readTime, now))
      ensures sentDelta == SpeedOf(old(Value()), Read(cacheTimeMs, id, totalSent, totalRecv, readTime, now), true)
      ensures recvDelta == SpeedOf(old(Value()), Read(cacheTimeMs, id, totalSent, totalRecv, readTime, now), false)
    {
      hide Apply, Contents, ReportedSpeed;
      sentDelta, recvDelta := CalculateNetworkStats(id, totalSent, totalRecv, cacheTimeMs, now);
      StoreReadTime(id, readTime);
    }

    /** The end of a poll. */
    method FinishPoll(cacheTimeMs: nat)
      requires Valid()
      modifies networkSentTrackers.Values, networkRecvTrackers.Values
      ensures Valid() && Value() == Step(old(Value()), Finish(cacheTimeMs))
    {
      CycleNetworkDeltasForCacheTime(cacheTimeMs);
    }

    /** A container that is gone, failed or was restarted is forgotten, its trackers are not. */
    method DeleteContainerStats(id: string)
      modifies this`prevReadTime
      ensures prevReadTime == old(prevReadTime) - {id}
    {
      prevReadTime := prevReadTime - {id};
    }
  }

  function ReportedSpeed(trackers: map<nat, Tracker>, prevReadTime: map<string, int>, key: nat, id: string, now: int): Uint64 {
    if id in prevReadTime
    then Speed(DeltaAt(TrackerAt(trackers, key), id), (now - prevReadTime[id]) % U64)
    else 0
  }

  // ----- runs

  datatype DockerState = DockerState(sent: map<nat, Tracker>, recv: map<nat, Tracker>, readTimes: map<string, int>)

  /** A container read under an interval (`read` by Docker's clock, `now` by the agent's), the end of an
      interval's poll, or a container forgotten. */
  datatype Poll =
    | Read(key: nat, id: string, sent: Uint64, recv: Uint64, read: int, now: int)
    | Finish(key: nat)
    | Forget(id: string)

  function CycleAt(trackers: map<nat, Tracker>, key: nat): map<nat, Tracker> {
    if key in trackers then Apply(trackers, Cycle(key)) else trackers
  }

  function Step(s: DockerState, p: Poll): DockerState {
    match p
    case Read(key, id, sent, recv, read, _) =>
      DockerState(Apply(s.sent, Set(key, id, sent)), Apply(s.recv, Set(key, id, recv)), s.readTimes[id := read])
    case Finish(key) => s.(sent := CycleAt(s.sent, key), recv := CycleAt(s.recv, key))
    case Forget(id) => s.(readTimes := s.readTimes - {id})
  }

  function StateAfter(ps: seq<Poll>): DockerState {
    var n := |ps| - 1;
    if ps == [] then DockerState(map[], map[], map[]) else Step(StateAfter(ps[..n]), ps[n])
  }

  function Side(s: DockerState, isSent: bool): map<nat, Tracker> {
    if isSent then s.sent else s.recv
  }

  function TotalOf(p: Poll, isSent: bool): Uint64
    requires p.Read?
  {
    if isSent then p.sent else p.recv
  }

  /** The speed reported for a read. */
  function SpeedOf(s: DockerState, p: Poll, isSent: bool): Uint64
    requires p.Read?
  {
    ReportedSpeed(Side(Step(s, p), isSent), s.readTimes, p.key, p.id, p.now)
  }

  /** What happens to the trackers of one direction. */
  function Trace(ps: seq<Poll>, isSent: bool): seq<Event> {
    var n := |ps| - 1;
    if ps == [] then []
    else
      Trace(ps[..n], isSent) +
      match ps[n]
      case Read(key, id, _, _, _, _) => [Set(key, id, TotalOf(ps[n], isSent))]
      case Finish(key) => [Cycle(key)]
      case Forget(_) => []
  }

  lemma {:induction false} TrackersFollow(ps: seq<Poll>, isSent: bool, key: nat)
    ensures TrackerAt(Side(StateAfter(ps), isSent), key) == TrackerAt(DeltaTracking.After(Trace(ps, isSent)), key)
  {
    if ps != [] {
      var n := |ps| - 1;
      TrackersFollow(ps[..n], isSent, key);
      var before := Trace(ps[..n], isSent);
      assert before + [] == before;
      match ps[n]
      case Read(k, id, _, _, _, _) =>
        assert (before + [Set(k, id, TotalOf(ps[n], isSent))])[..|before|] == before;
        TrackersFollow(ps[..n], isSent, k);
      case Finish(k) =>
        assert (before + [Cycle(k)])[..|before|] == before;
        TrackersFollow(ps[..n], isSent, k);
      case Forget(_) =>
    }
  }

  /** The reading Docker gave last for the container, under whatever interval, unless it was forgotten. */
  function LastRead(ps: seq<Poll>, id: string): Option<int> {
    var n := |ps| - 1;
    if ps == [] then None
    else
      match ps[n]
      case Read(_, i, _, _, read, _) => if i == id then Some(read) else LastRead(ps[..n], id)
      case Forget(i) => if i == id then None else LastRead(ps[..n], id)
      case Finish(_) => LastRead(ps[..n], id)
  }

  lemma {:induction false} ReadTimesAreLast(ps: seq<Poll>, id: string)
    ensures LastRead(ps, id) == if id in StateAfter(ps).readTimes then Some(StateAfter(ps).readTimes[id]) else None
  {
    if ps != [] { ReadTimesAreLast(ps[..|ps| - 1], id); }
  }

  /** The container's difference within its own interval. */
  function OwnDifference(ps: seq<Poll>, p: Poll, isSent: bool): Uint64
    requires p.Read?
  {
    Difference(Some(TotalOf(p, isSent)), DeltaTracking.Previous(Project(Trace(ps, isSent), p.key, p.id)))
  }

  /** In every run, the speed reported is the interval's own difference over the time since the container was
      last read, under whatever interval. */
  lemma SpeedIsOwnDifference(ps: seq<Poll>, p: Poll, isSent: bool)
    requires p.Read?
    ensures SpeedOf(StateAfter(ps), p, isSent)
         == match LastRead(ps, p.id)
            case Some(read) => Speed(OwnDifference(ps, p, isSent), (p.now - read) % U64)
            case None => 0
  {
    hide Speed;
    ReadTimesAreLast(ps, p.id);
    TrackersFollow(ps, isSent, p.key);
    ReadingsAreLocal(Trace(ps, isSent), p.key, p.id);
  }

  /** With the container read once in every poll of the interval, this is the difference to the total read in
      the interval's last poll. */
  lemma OwnDifferenceSpansInterval(ps: seq<Poll>, p: Poll, isSent: bool)
    requires p.Read?
    requires var marks := Project(Trace(ps, isSent), p.key, p.id);
             Alternates(marks) && marks != [] && marks[|marks| - 1] == Ticked && DeltaTracking.Values(marks) != []
    ensures var totals := DeltaTracking.Values(Project(Trace(ps, isSent), p.key, p.id));
            OwnDifference(ps, p, isSent) == Sub64(TotalOf(p, isSent), totals[|totals| - 1])
  {
    PreviousIsLastRead(Project(Trace(ps, isSent), p.key, p.id));
  }

  /** What a speed is: the difference for each second, rounded down, 0 if no time has passed, and 0 if it is over
      5 GB/s, which counts as a mistake. (The multiplication wraps.) */
  lemma SpeedMeaning(raw: Uint64, ms: Uint64)
    ensures ms == 0 ==> Speed(raw, ms) == 0
    ensures ms > 0 && raw * 1000 % U64 / ms > 5_000_000_000 ==> Speed(raw, ms) == 0
    ensures ms > 0 && raw * 1000 % U64 / ms <= 5_000_000_000 ==> IsRate(Speed(raw, ms), raw, ms)
  {
    if ms > 0 { PerSecondIsRate(raw, ms); }
  }

  // ----- the two clocks

  predicate Reads(p: Poll, id: string) {
    p.Read? && p.id == id
  }

  /** The `i`th event is the interval's last read of the container, which is not forgotten since. */
  ghost predicate IsOwnLast(ps: seq<Poll>, key: nat, id: string, i: nat) {
    && i < |ps| && Reads(ps[i], id) && ps[i].key == key
    && forall j :: i < j < |ps| ==> !(Reads(ps[j], id) && ps[j].key == key) && ps[j] != Forget(id)
  }

  /** Docker's clock does not go back for the container. */
  ghost predicate ReadsInOrder(ps: seq<Poll>, id: string) {
    forall i, j :: 0 <= i < j < |ps| && Reads(ps[i], id) && Reads(ps[j], id) ==> ps[i].read <= ps[j].read
  }

  /** Another interval has read the container at another time since. */
  ghost predicate ReadElsewhere(ps: seq<Poll>, id: string, i: nat)
    requires i < |ps| && Reads(ps[i], id)
  {
    exists j :: i < j < |ps| && Reads(ps[j], id) && ps[j].read != ps[i].read
  }

  lemma {:induction false} LastReadFrom(ps: seq<Poll>, id: string, i: nat) returns (last: nat)
    requires i < |ps| && Reads(ps[i], id) && forall j :: i < j < |ps| ==> ps[j] != Forget(id)
    ensures i <= last < |ps| && Reads(ps[last], id) && LastRead(ps, id) == Some(ps[last].read)
    ensures forall j :: last < j < |ps| ==> !Reads(ps[j], id)
  {
    var n := |ps| - 1;
    if Reads(ps[n], id) {
      last := n;
    } else {
      last := LastReadFrom(ps[..n], id, i);
    }
  }

  /** The clock is the interval's own if and only if no other interval has read the container, at another time,
      since the interval's own last read. */
  lemma ClockIsOwnExactly(ps: seq<Poll>, key: nat, id: string, i: nat)
    requires IsOwnLast(ps, key, id, i) && ReadsInOrder(ps, id)
    ensures LastRead(ps, id) == Some(ps[i].read) <==> !ReadElsewhere(ps, id, i)
    ensures LastRead(ps, id).Some? && LastRead(ps, id).value >= ps[i].read
    ensures forall j :: i < j < |ps| && Reads(ps[j], id) ==> ps[j].key != key
  {
    var last := LastReadFrom(ps, id, i);
    if LastRead(ps, id) == Some(ps[i].read) {
      forall j | i < j < |ps| && Reads(ps[j], id) ensures ps[j].read == ps[i].read {
        assert j <= last;
        assert ps[i].read <= ps[j].read;
        assert j < last ==> ps[j].read <= ps[last].read;
      }
    }
  }

  /** The speed the interval itself would give. */
  function OwnSpeed(ps: seq<Poll>, p: Poll, isSent: bool, i: nat): Uint64
    requires p.Read? && i < |ps| && ps[i].Read?
  {
    Speed(OwnDifference(ps, p, isSent), (p.now - ps[i].read) % U64)
  }

  /** So the speed is right when no other interval has read the container since; otherwise the same difference
      is divided by less time. */
  lemma SpeedIsRightUnlessReadElsewhere(ps: seq<Poll>, p: Poll, isSent: bool, i: nat)
    requires p.Read? && IsOwnLast(ps, p.key, p.id, i) && ReadsInOrder(ps, p.id)
    ensures !ReadElsewhere(ps, p.id, i) ==> SpeedOf(StateAfter(ps), p, isSent) == OwnSpeed(ps, p, isSent, i)
    ensures ReadElsewhere(ps, p.id, i) ==>
              LastRead(ps, p.id).Some? && LastRead(ps, p.id).value > ps[i].read
              && SpeedOf(StateAfter(ps), p, isSent) == Speed(OwnDifference(ps, p, isSent), (p.now - LastRead(ps, p.id).value) % U64)
  {
    hide Speed, OwnDifference, SpeedOf, StateAfter, LastRead, IsOwnLast, ReadsInOrder, ReadElsewhere;
    SpeedIsOwnDifference(ps, p, isSent);
    ClockIsOwnExactly(ps, p.key, p.id, i);
  }

  /** A poll every minute, another every second. */
  const POLLS: seq<Poll> := [Read(60_000, "c", 0, 0, 0, 0), Finish(60_000), Read(1_000, "c", 59_000, 0, 59_000, 59_000), Finish(1_000)]
  const MINUTE_POLL: Poll := Read(60_000, "c", 60_000, 0, 60_000, 60_000)

  /** A run in which it goes wrong: a poll every minute that follows a second after another interval's poll
      reports sixty times the rate. */
  lemma OtherIntervalsShortenTheClock()
    ensures IsOwnLast(POLLS, 60_000, "c", 0) && ReadElsewhere(POLLS, "c", 0)
    ensures SpeedOf(StateAfter(POLLS), MINUTE_POLL, true) == 60_000
    ensures OwnSpeed(POLLS, MINUTE_POLL, true, 0) == 1_000
  {
    hide Trace, LastRead, StateAfter, SpeedOf, Project;
    PollsTraced();
    MinuteMarks();
    assert Reads(POLLS[2], "c");
    SpeedIsOwnDifference(POLLS, MINUTE_POLL, true);
    assert OwnDifference(POLLS, MINUTE_POLL, true) == 60_000;
    MinuteSpeeds();
  }

  lemma MinuteSpeeds()
    ensures Speed(60_000, 1_000) == 60_000 && Speed(60_000, 60_000) == 1_000
  {
    assert PerSecond(60_000, 1_000) == 60_000 && PerSecond(60_000, 60_000) == 1_000;
  }

  lemma PollsTraced()
    ensures Trace(POLLS, true) == TRACE && LastRead(POLLS, "c") == Some(59_000)
  {
    var p1, p2, p3 := POLLS[..1], POLLS[..2], POLLS[..3];
    assert p1[..0] == [] && p2[..1] == p1 && p3[..2] == p2;
    assert Trace(p1, true) == [Set(60_000, "c", 0)];
    assert Trace(p2, true) == [Set(60_000, "c", 0), Cycle(60_000)];
    assert Trace(p3, true) == [Set(60_000, "c", 0), Cycle(60_000), Set(1_000, "c", 59_000)];
    assert LastRead(p3, "c") == Some(59_000);
  }

  const TRACE: seq<Event> := [Set(60_000, "c", 0), Cycle(60_000), Set(1_000, "c", 59_000), Cycle(1_000)]

  lemma ProjectNext(es: seq<Event>, e: Event, key: nat, id: string)
    ensures Project(es + [e], key, id)
         == Project(es, key, id) + match e
                                   case Set(k, i, value) => if k == key && i == id then [Seen(value)] else []
                                   case Cycle(k) => if k == key then [Ticked] else []
  {
    assert (es + [e])[..|es|] == es;
  }

  lemma TraceProjected()
    ensures Project(TRACE, 60_000, "c") == [Seen(0), Ticked]
  {
    assert Project([], 60_000, "c") == [];
    hide Project;
    ProjectNext([], TRACE[0], 60_000, "c");
    assert [] + [TRACE[0]] == TRACE[..1];
    ProjectNext(TRACE[..1], TRACE[1], 60_000, "c");
    assert TRACE[..1] + [TRACE[1]] == TRACE[..2];
    ProjectNext(TRACE[..2], TRACE[2], 60_000, "c");
    assert TRACE[..2] + [TRACE[2]] == TRACE[..3];
    ProjectNext(TRACE[..3], TRACE[3], 60_000, "c");
    assert TRACE[..3] + [TRACE[3]] == TRACE;
  }

  lemma MinuteMarks()
    ensures DeltaTracking.Previous(Project(TRACE, 60_000, "c")) == Some(0)
  {
    hide Project;
    TraceProjected();
    assert [Seen(0), Ticked][..1] == [Seen(0)];
  }
}
