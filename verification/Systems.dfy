/** The hub's registry of monitored systems (internal/hub/systems/system_manager.go) and the updaters it
    starts (internal/hub/systems/system.go). Manager calls are atomic steps. */
module Systems {
  import opened Options

  class Context {
    var cancelled: bool

    constructor ()
      ensures !cancelled
    {
      cancelled := false;
    }

    method Cancel()
      modifies this
      ensures cancelled
    {
      cancelled := true;
    }
  }

  datatype Status = Up | Down | Paused | Pending

  datatype Record = Record(id: string, host: string, port: string, status: Status)

  /** A system's updater runs until its context is cancelled. */
  class System {
    const id: string
    var host: string
    var port: string
    var status: Status
    var ctx: Context?
    var hasWebSocket: bool

    /** As loaded from the database: without a context. */
    constructor FromRecord(r: Record)
      ensures id == r.id && host == r.host && port == r.port && status == r.status && ctx == null && !hasWebSocket
    {
      id, host, port, status, ctx, hasWebSocket := r.id, r.host, r.port, r.status, null, false;
    }

    method Fill(r: Record)
      modifies this`host, this`port, this`status
      ensures host == r.host && port == r.port && status == r.status
    {
      status := r.status;
      host := r.host;
      port := r.port;
    }

    /** An existing context is kept, cancelled or not. */
    method GetContext()
      modifies this`ctx
      ensures ctx != null
      ensures if old(ctx) == null then fresh(ctx) && !ctx.cancelled else ctx == old(ctx)
    {
      if ctx == null {
        ctx := new Context();
      }
    }
  }

  ghost function Contexts(ss: set<System>): set<Context>
    reads ss
  {
    set s | s in ss && s.ctx != null :: s.ctx
  }

  /** The updater runs. */
  ghost predicate Live(s: System)
    reads s, s.ctx
  {
    s.ctx != null && !s.ctx.cancelled
  }

  datatype Error = SystemExists | MissingFields | NotFound

  datatype Effect = DeactivateAlerts(id: string) | HandleSystemAlerts(id: string) | HandleStatusAlerts(id: string, status: Status)

  class SystemManager {
    var systems: map<string, System>
    /** Every system whose updater was ever started. */
    ghost var started: set<System>

    ghost predicate Valid()
      reads this, started, Contexts(started)
    {
      && (forall id :: id in systems ==> systems[id] in started && systems[id].id == id && Live(systems[id]))
      && (forall s :: s in started ==> s.ctx != null && (Live(s) ==> s.id in systems && systems[s.id] == s))
      && (forall s, t :: s in started && t in started && s != t ==> s.ctx != t.ctx)
    }

    /** Not started yet, with a context of its own that is not cancelled, or none. */
    ghost predicate Startable(sys: System)
      reads this, started, sys, sys.ctx
    {
      sys !in started && (sys.ctx != null ==> !sys.ctx.cancelled && sys.ctx !in Contexts(started))
    }

    constructor ()
      ensures Valid() && systems == map[] && started == {}
    {
      systems, started := map[], {};
    }

    /** Starts the updater. */
    method AddSystem(sys: System) returns (err: Option<Error>)
      requires Valid() && Startable(sys)
      modifies this, sys
      ensures Valid()
      ensures err == if sys.id in old(systems) then Some(SystemExists)
                     else if sys.id == "" || old(sys.host) == "" then Some(MissingFields) else None
      ensures if err == None then systems == old(systems)[sys.id := sys] && started == old(started) + {sys}
              else systems == old(systems) && started == old(started)
      ensures sys.host == old(sys.host) && sys.port == old(sys.port) && sys.status == old(sys.status) && sys.hasWebSocket == old(sys.hasWebSocket)
    {
      if sys.id in systems {
        return Some(SystemExists);
      }
      if sys.id == "" || sys.host == "" {
        return Some(MissingFields);
      }
      sys.GetContext();
      systems := systems[sys.id := sys];
      started := started + {sys};
      return None;
    }

    /** Cancels the updater. */
    method RemoveSystem(systemID: string) returns (err: Option<Error>)
      requires Valid()
      modifies this, Contexts(started)
      ensures Valid()
      ensures err == if systemID in old(systems) then None else Some(NotFound)
      ensures systems == old(systems) - {systemID} && started == old(started)
      ensures forall s :: s in started && s.id != systemID ==> Live(s) == old(Live(s))
      ensures forall s :: s in started && s.id == systemID ==> !Live(s)
    {
      if systemID !in systems {
        return Some(NotFound);
      }
      var system := systems[systemID];
      system.ctx.Cancel();
      systems := systems - {systemID};
      return None;
    }

    method NewSystem(systemId: string) returns (system: System)
      ensures fresh(system) && system.id == systemId && system.ctx != null && fresh(system.ctx) && !system.ctx.cancelled
      ensures !system.hasWebSocket
    {
      system := new System.FromRecord(Record(systemId, "", "", Pending));
      system.GetContext();
    }

    /** Whatever ran under the record's id is stopped first. */
    method AddRecord(record: Record, given: System?) returns (err: Option<Error>, system: System)
      requires Valid() && (given != null ==> Startable(given) && given.id == record.id)
      modifies this, Contexts(started), given
      ensures Valid()
      ensures system.id == record.id && (if given != null then system == given else fresh(system))
      ensures system.host == record.host && system.port == record.port && system.status == record.status
      ensures system.hasWebSocket == (given != null && old(given.hasWebSocket))
      ensures err == if record.id == "" || record.host == "" then Some(MissingFields) else None
      ensures systems == if err == None then old(systems)[record.id := system] else old(systems) - {record.id}
      ensures started == old(started) + if err == None then {system} else {}
    {
      StopExisting(record.id);
      if given == null {
        system := NewSystem(record.id);
      } else {
        system := given;
      }
      err := FillAndAdd(system, record);
    }

    method StopExisting(id: string)
      requires Valid()
      modifies this, Contexts(started)
      ensures Valid() && systems == old(systems) - {id} && started == old(started)
    {
      if id in systems {
        var _ := RemoveSystem(id);
      }
    }

    /** The last part of adding a record: its fields are copied. */
    method FillAndAdd(system: System, record: Record) returns (err: Option<Error>)
      requires Valid() && Startable(system) && system.id == record.id && record.id !in systems
      modifies this, system
      ensures Valid()
      ensures system.host == record.host && system.port == record.port && system.status == record.status
      ensures system.hasWebSocket == old(system.hasWebSocket)
      ensures err == if record.id == "" || record.host == "" then Some(MissingFields) else None
      ensures systems == if err == None then old(systems)[record.id := system] else old(systems)
      ensures started == old(started) + if err == None then {system} else {}
    {
      system.Fill(record);
      err := AddSystem(system);
    }

    /** `record` is the system's record, if it is found. */
    method AddWebSocketSystem(systemId: string, record: Option<Record>) returns (err: Option<Error>)
      requires Valid() && (record.Some? ==> record.value.id == systemId)
      modifies this, Contexts(started)
      ensures Valid()
      ensures record == None ==> err == Some(NotFound) && systems == old(systems) && started == old(started)
      ensures record.Some? && err == None ==>
                && systems.Keys == old(systems).Keys + {systemId} && systems[systemId].hasWebSocket && fresh(systems[systemId])
                && started == old(started) + {systems[systemId]}
      ensures record.Some? && err != None ==> systems == old(systems) - {systemId} && started == old(started)
    {
      if record == None {
        return Some(NotFound);
      }
      var system := NewSystem(systemId);
      system.hasWebSocket := true;
      err, system := AddRecord(record.value, system);
    }

    method OnRecordAfterDeleteSuccess(id: string)
      requires Valid()
      modifies this, Contexts(started)
      ensures Valid() && systems == old(systems) - {id} && started == old(started)
    {
      var _ := RemoveSystem(id);
    }

    /** A rotated token ends a connection made with the old one. */
    method OnTokenRotated(systemID: string)
      requires Valid()
      modifies this, Contexts(started)
      ensures Valid() && started == old(started)
      ensures systems == if systemID in old(systems) && old(systems)[systemID].hasWebSocket then old(systems) - {systemID} else old(systems)
    {
      if systemID !in systems || !systems[systemID].hasWebSocket {
        return;
      }
      var _ := RemoveSystem(systemID);
    }

    /** The hook on record updates. */
    method OnRecordAfterUpdateSuccess(record: Record) returns (effects: seq<Effect>)
      requires Valid()
      modifies this, Contexts(started), started
      ensures Valid() && old(started) <= started
      ensures effects == EffectsOf(record, if record.id in old(systems) then Some(old(systems)[record.id].hasWebSocket) else None,
                                   if record.id in old(systems) then old(systems[record.id].status) else Pending)
      ensures if (record.status == Pending && !(record.id in old(systems) && old(systems[record.id].hasWebSocket)))
                 || (record.status in {Up, Down} && record.id !in old(systems))
              then systems.Keys == (if record.id == "" || record.host == "" then old(systems).Keys - {record.id} else old(systems).Keys + {record.id})
                   && (record.id in systems ==> fresh(systems[record.id]) && systems[record.id].status == record.status)
              else systems == old(systems) && (record.id in systems ==> systems[record.id].status == record.status)
      ensures record.id in systems ==> systems[record.id].hasWebSocket == (record.id in old(systems) && old(systems[record.id].hasWebSocket))
      ensures forall id :: id in systems && id != record.id ==>
                id in old(systems) && systems[id] == old(systems)[id] && systems[id].status == old(systems[id].status)
      ensures Raises(record, record.id in old(systems), record.id in old(systems) && old(systems[record.id].hasWebSocket),
                     if record.id in old(systems) then old(systems[record.id].status) else Pending, effects)
    {
      hide Raises;
      RaisesMeaning(record, record.id in systems, record.id in systems && systems[record.id].hasWebSocket,
                    if record.id in systems then systems[record.id].status else Pending);
      var newStatus := record.status;
      var prevStatus := Pending;
      var ok := record.id in systems;
      if ok {
        var system := systems[record.id];
        prevStatus := system.status;
        system.status := newStatus;
      }
      match newStatus {
        case Paused =>
          return [DeactivateAlerts(record.id)];
        case Pending =>
          if ok && systems[record.id].hasWebSocket {
            return [];
          }
          var _, _ := AddRecord(record, null);
          return [DeactivateAlerts(record.id)];
        case _ =>
      }
      if !ok {
        var _, _ := AddRecord(record, null);
        return [];
      }
      effects := RaiseChanges(record, prevStatus);
    }

    /** The last part of the hook: what a stored system that is up or down raises. */
    method RaiseChanges(record: Record, prevStatus: Status) returns (effects: seq<Effect>)
      requires record.status == Up || record.status == Down
      ensures forall webSocket :: effects == EffectsOf(record, Some(webSocket), prevStatus)
    {
      effects := [];
      if record.status == Up {
        effects := effects + [HandleSystemAlerts(record.id)];
      }
      if (record.status == Down && prevStatus == Up) || (record.status == Up && prevStatus == Down) {
        effects := effects + [HandleStatusAlerts(record.id, record.status)];
      }
    }
  }

  /** `webSocket` is None unless the system is stored. */
  function EffectsOf(record: Record, webSocket: Option<bool>, previous: Status): seq<Effect> {
    match record.status
    case Paused => [DeactivateAlerts(record.id)]
    case Pending => if webSocket == Some(true) then [] else [DeactivateAlerts(record.id)]
    case Up =>
      if webSocket == None then []
      else [HandleSystemAlerts(record.id)] + if previous == Down then [HandleStatusAlerts(record.id, Up)] else []
    case Down => if webSocket != None && previous == Up then [HandleStatusAlerts(record.id, Down)] else []
  }

  /** What an update of a record raises, and nothing else: a pause deactivates the system's alerts, and so does a
      resumption that has no connection to go on with; a stored system that is up has its thresholds evaluated; and
      a stored system that changes between up and down raises the status alert. Nothing is raised twice. */
  ghost predicate Raises(record: Record, stored: bool, hasWebSocket: bool, previous: Status, effects: seq<Effect>) {
    && (DeactivateAlerts(record.id) in effects <==>
          record.status == Paused || (record.status == Pending && !(stored && hasWebSocket)))
    && (HandleSystemAlerts(record.id) in effects <==> record.status == Up && stored)
    && (forall status :: HandleStatusAlerts(record.id, status) in effects <==>
          status == record.status && stored && ((previous == Up && status == Down) || (previous == Down && status == Up)))
    && (forall e :: e in effects ==> e.id == record.id)
    && (forall i, j :: 0 <= i < j < |effects| ==> effects[i] != effects[j])
  }

  lemma RaisesMeaning(record: Record, stored: bool, hasWebSocket: bool, previous: Status)
    requires hasWebSocket ==> stored
    ensures Raises(record, stored, hasWebSocket, if stored then previous else Pending,
                   EffectsOf(record, if stored then Some(hasWebSocket) else None, if stored then previous else Pending))
  {
  }

  // ----- one live updater

  /** In every valid state an id has at most one live updater, and it has one exactly while it is stored. */
  lemma OneLiveUpdater(m: SystemManager, id: string)
    requires m.Valid()
    ensures id in m.systems <==> exists s :: s in m.started && s.id == id && Live(s)
    ensures forall s, t :: s in m.started && t in m.started && s.id == id && t.id == id && Live(s) && Live(t) ==> s == t
  {
    if id in m.systems {
      var s := m.systems[id];
      assert s in m.started && s.id == id && Live(s);
    }
  }

  // ----- status reports

  /** What the hook raises while a stored system's record takes these statuses in turn; the first is the one
      stored at the start. */
  function RunEffects(record: Record, webSocket: bool, history: seq<Status>): seq<Effect>
    requires history != []
  {
    var n := |history| - 1;
    if n == 0 then []
    else
      RunEffects(record, webSocket, history[..n]) +
      EffectsOf(record.(status := history[n]), Some(webSocket), history[n - 1])
  }

  /** The statuses of the status alerts among the effects. */
  function StatusAlerts(effects: seq<Effect>): seq<Status> {
    var n := |effects| - 1;
    if effects == [] then []
    else StatusAlerts(effects[..n]) + match effects[n] case HandleStatusAlerts(_, status) => [status] case _ => []
  }

  predicate Reported(history: seq<Status>, i: nat)
    requires 0 < i < |history|
  {
    (history[i] == Down && history[i - 1] == Up) || (history[i] == Up && history[i - 1] == Down)
  }

  /** The changes between up and down. */
  function Reports(history: seq<Status>): seq<Status> {
    var n := |history| - 1;
    if n <= 0 then [] else Reports(history[..n]) + if Reported(history, n) then [history[n]] else []
  }

  lemma {:induction false} StatusAlertsAppend(a: seq<Effect>, b: seq<Effect>)
    ensures StatusAlerts(a + b) == StatusAlerts(a) + StatusAlerts(b)
  {
    if b == [] {
      assert a + b == a;
    } else {
      var n := |b| - 1;
      assert (a + b)[..|a + b| - 1] == a + b[..n];
      StatusAlertsAppend(a, b[..n]);
    }
  }

  /** The status alerts that the hook raises are the changes between up and down. */
  lemma {:induction false} AlertsAreChanges(record: Record, webSocket: bool, history: seq<Status>)
    requires history != []
    ensures StatusAlerts(RunEffects(record, webSocket, history)) == Reports(history)
  {
    var n := |history| - 1;
    if n > 0 {
      var raised := EffectsOf(record.(status := history[n]), Some(webSocket), history[n - 1]);
      AlertsAreChanges(record, webSocket, history[..n]);
      StatusAlertsAppend(RunEffects(record, webSocket, history[..n]), raised);
      RaisedAlerts(record.(status := history[n]), webSocket, history[n - 1]);
    }
  }

  lemma RaisedAlerts(record: Record, webSocket: bool, previous: Status)
    ensures StatusAlerts(EffectsOf(record, Some(webSocket), previous))
         == if (record.status == Down && previous == Up) || (record.status == Up && previous == Down) then [record.status] else []
  {
    var effects := EffectsOf(record, Some(webSocket), previous);
    assert StatusAlerts([]) == [];
    if |effects| > 0 {
      assert effects[..|effects| - 1] == [] || effects[..|effects| - 1] == [HandleSystemAlerts(record.id)];
      assert [HandleSystemAlerts(record.id)][..0] == [];
    }
  }

  predicate Alternate(reports: seq<Status>) {
    forall i :: 0 <= i < |reports| - 1 ==> reports[i] != reports[i + 1]
  }

  /** Paused, or waiting to be resumed: the stretches between are up and down. */
  predicate Pausing(status: Status) {
    status == Paused || status == Pending
  }

  /** The stretch that `i` belongs to has changed by then. */
  predicate Changed(history: seq<Status>, i: nat)
    requires i < |history|
  {
    i > 0 && !Pausing(history[i]) && (Reported(history, i) || Changed(history, i - 1))
  }

  /** The status with which the stretch that `i` belongs to starts. */
  function Start(history: seq<Status>, i: nat): Status
    requires i < |history|
  {
    if i == 0 || Pausing(history[i]) || Pausing(history[i - 1]) then history[i] else Start(history, i - 1)
  }

  /** At `i` a stretch changes for the first time. */
  predicate FirstChange(history: seq<Status>, i: nat)
    requires 0 < i < |history|
  {
    Reported(history, i) && !Changed(history, i - 1)
  }

  /** Every stretch that changes starts with the status last reported, if any was. */
  ghost predicate ResumesAsReported(history: seq<Status>) {
    forall i: nat :: 0 < i < |history| && FirstChange(history, i) ==> StartsAsReported(history, i)
  }

  predicate StartsAsReported(history: seq<Status>, i: nat)
    requires 0 < i < |history|
  {
    var before := Reports(history[..i]);
    before != [] ==> Start(history, i - 1) == before[|before| - 1]
  }

  lemma {:induction false} ChangedBefore(history: seq<Status>, n: nat, i: nat)
    requires i < n <= |history|
    ensures Changed(history[..n], i) == Changed(history, i) && Start(history[..n], i) == Start(history, i)
  {
    if i > 0 { ChangedBefore(history, n, i - 1); }
  }

  /** Within a stretch, the status is the last one reported once it has changed, and the first one before. */
  lemma {:induction false} StretchStatus(history: seq<Status>, i: nat)
    requires i < |history| && !Pausing(history[i])
    ensures var rs := Reports(history[..i + 1]);
            if Changed(history, i) then rs != [] && rs[|rs| - 1] == history[i] else Start(history, i) == history[i]
  {
    if i > 0 {
      var before := Reports(history[..i]);
      assert history[..i + 1][..i] == history[..i];
      assert Reported(history[..i + 1], i) == Reported(history, i);
      assert before + [] == before;
      assert Reports(history[..i + 1]) == before + if Reported(history, i) then [history[i]] else [];
      if Pausing(history[i - 1]) {
        assert !Reported(history, i) && !Changed(history, i - 1);
      } else {
        StretchStatus(history, i - 1);
        assert history[..i - 1 + 1] == history[..i];
        assert Reported(history, i) || history[i] == history[i - 1];
      }
    }
  }

  lemma {:induction false} ReportsAreChanges(history: seq<Status>)
    ensures forall r :: r in Reports(history) ==> !Pausing(r)
  {
    if |history| > 1 { ReportsAreChanges(history[..|history| - 1]); }
  }

  /** For every sequence of statuses, the reports alternate if and only if every stretch between pauses that
      changes starts with the status last reported. */
  lemma {:induction false} ReportsAlternateExactly(history: seq<Status>)
    ensures Alternate(Reports(history)) <==> ResumesAsReported(history)
  {
    var n := |history| - 1;
    if n > 0 {
      var before := history[..n];
      ReportsAlternateExactly(before);
      assert Reports(before) + [] == Reports(before);
      forall i: nat | 0 < i < n
        ensures FirstChange(before, i) == FirstChange(history, i) && StartsAsReported(before, i) == StartsAsReported(history, i)
      {
        ChangedBefore(history, n, i - 1);
        assert before[..i] == history[..i];
      }
      assert ResumesAsReported(history) <==> ResumesAsReported(before) && (FirstChange(history, n) ==> StartsAsReported(history, n));
      if Reported(history, n) {
        StretchStatus(history, n - 1);
        ReportsAreChanges(before);
        AlternateNext(Reports(before), history[n]);
        assert history[..n - 1 + 1] == before && Reports(history) == Reports(before) + [history[n]];
        var rs := Reports(before);
        if rs != [] {
          assert rs[|rs| - 1] in rs;
          assert rs[|rs| - 1] != history[n] <==> rs[|rs| - 1] == history[n - 1];
        }
      } else {
        assert Reports(history) == Reports(before) && !FirstChange(history, n);
      }
    }
  }

  lemma AlternateNext(reports: seq<Status>, r: Status)
    ensures Alternate(reports + [r]) <==> Alternate(reports) && (reports != [] ==> reports[|reports| - 1] != r)
  {
    var all := reports + [r];
    if Alternate(all) {
      forall i | 0 <= i < |reports| - 1 ensures reports[i] != reports[i + 1] {
        assert all[i] != all[i + 1];
      }
      if reports != [] { assert all[|reports| - 1] != all[|reports|]; }
    }
  }

  /** While a system is neither paused nor resumed, its reports alternate. */
  lemma ReportsAlternate(history: seq<Status>)
    requires forall i :: 0 <= i < |history| ==> !Pausing(history[i])
    ensures Alternate(Reports(history))
  {
    forall i: nat | 0 < i < |history| && FirstChange(history, i) ensures StartsAsReported(history, i) {
      NoReportYet(history, i - 1);
    }
    ReportsAlternateExactly(history);
  }

  lemma {:induction false} NoReportYet(history: seq<Status>, i: nat)
    requires i < |history| && !Changed(history, i) && forall j :: 0 <= j < |history| ==> !Pausing(history[j])
    ensures Reports(history[..i + 1]) == []
  {
    if i > 0 {
      assert history[..i + 1][..i] == history[..i];
      NoReportYet(history, i - 1);
    }
  }

  /** A pause breaks this: the hook reports the outage before it and the one after it, without the recovery in
      between. */
  lemma PauseHidesRecovery(record: Record, webSocket: bool)
    ensures StatusAlerts(RunEffects(record, webSocket, [Up, Down, Paused, Pending, Up, Down])) == [Down, Down]
  {
    var history := [Up, Down, Paused, Pending, Up, Down];
    AlertsAreChanges(record, webSocket, history);
    assert [Up, Down][..1] == [Up] && Reports([Up]) == [] && Reports([Up, Down]) == [Down];
    assert [Up, Down, Paused][..2] == [Up, Down] && Reports([Up, Down, Paused]) == [Down];
    assert [Up, Down, Paused, Pending][..3] == [Up, Down, Paused] && Reports([Up, Down, Paused, Pending]) == [Down];
    assert history[..4] == [Up, Down, Paused, Pending] && history[..5][..4] == history[..4];
    assert Reports(history[..5]) == [Down];
  }
}
