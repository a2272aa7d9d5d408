/** Delayed status alerts (internal/alerts/alerts_status.go): a system that goes down schedules an
    alert, coming up cancels it, and a worker sends what has been pending long enough.

    Reports put tasks on a queue; the worker takes them off, ticks, and runs a repair query. */
module StatusAlerts {
  import opened Options

  /** Times are milliseconds. */
  const MINUTE: int := 60_000

  /** A "Status" alert record. `minutes` is its configured delay. */
  datatype Alert = Alert(system: string, minutes: int, triggered: bool)

  datatype Task = Schedule(alert: string, delay: int) | Cancel(alert: string)

  /** What happened, oldest first. */
  datatype Entry = Down(system: string, at: int) | Up(system: string, at: int)
                 | SentDown(alert: string, at: int) | SentUp(alert: string, at: int)

  /** `pending` maps an alert to the time its delay is over. */
  datatype State = State(alerts: map<string, Alert>, pending: map<string, int>, queue: seq<Task>, log: seq<Entry>)

  function Delay(a: Alert): int {
    (if a.minutes > 1 then a.minutes else 1) * MINUTE
  }

  // ----- reports

  /** `handleSystemDown`: what is queued for the records, in order; alerts already pending are skipped. */
  function Schedules(s: State, records: seq<string>): seq<Task> {
    var n := |records| - 1;
    if records == [] then []
    else
      Schedules(s, records[..n]) +
      if records[n] in s.pending || records[n] !in s.alerts then []
      else [Schedule(records[n], Delay(s.alerts[records[n]]))]
  }

  function OnDown(s: State, system: string, records: seq<string>, at: int): State {
    s.(queue := s.queue + Schedules(s, records), log := s.log + [Down(system, at)])
  }

  /** `sendStatusAlert`: store the new state and notify. */
  function SendUp(s: State, alert: string, at: int): State {
    if alert !in s.alerts then s
    else s.(alerts := s.alerts[alert := s.alerts[alert].(triggered := false)], log := s.log + [SentUp(alert, at)])
  }

  function SendDown(s: State, alert: string, at: int): State {
    if alert !in s.alerts then s
    else s.(alerts := s.alerts[alert := s.alerts[alert].(triggered := true)], log := s.log + [SentDown(alert, at)])
  }

  /** `handleSystemUp`: a pending alert is cancelled, any other gets an "up" notification. */
  function HandleUp(s: State, records: seq<string>, at: int): State {
    var n := |records| - 1;
    if records == [] then s
    else
      var before := HandleUp(s, records[..n], at);
      if records[n] in before.pending then before.(queue := before.queue + [Cancel(records[n])])
      else SendUp(before, records[n], at)
  }

  function OnUp(s: State, system: string, records: seq<string>, at: int): State {
    HandleUp(s.(log := s.log + [Up(system, at)]), records, at)
  }

  // ----- the worker

  /** One task off the queue. */
  function Process(s: State, at: int): State {
    if s.queue == [] then s
    else
      var rest := s.(queue := s.queue[1..]);
      match s.queue[0]
      case Schedule(alert, delay) => rest.(pending := s.pending[alert := at + delay])
      case Cancel(alert) => rest.(pending := s.pending - {alert})
  }

  /** A tick visits the pending alerts in some order and sends those past their time. */
  function Tick(s: State, order: seq<string>, at: int): State {
    var n := |order| - 1;
    if order == [] then s
    else
      var before := Tick(s, order[..n], at);
      var alert := order[n];
      if alert in before.pending && at > before.pending[alert]
      then SendDown(before, alert, at).(pending := before.pending - {alert})
      else before
  }

  /** `resolveStatusAlerts`: triggered alerts of systems that are up are reset, without notification. */
  function Resolve(s: State, up: set<string>): State {
    s.(alerts := map id | id in s.alerts :: if s.alerts[id].system in up then s.alerts[id].(triggered := false) else s.alerts[id])
  }

  /** A system that goes down schedules every one of these alerts that is not pending yet, and only those, each
      after its configured minutes, or one minute if there are none. */
  ghost predicate SchedulesAll(alerts: map<string, Alert>, pending: set<string>, records: seq<string>, tasks: seq<Task>) {
    && (forall t :: t in tasks ==>
          && t.Schedule? && t.alert in records && t.alert !in pending && t.alert in alerts
          && t.delay >= 60_000 && t.delay >= alerts[t.alert].minutes * 60_000
          && (t.delay == 60_000 || t.delay == alerts[t.alert].minutes * 60_000))
    && (forall id :: id in records && id !in pending && id in alerts ==> exists t :: t in tasks && t.alert == id)
  }

  lemma {:induction false} SchedulesMeaning(s: State, records: seq<string>)
    ensures SchedulesAll(s.alerts, s.pending.Keys, records, Schedules(s, records))
  {
    if records != [] {
      var n := |records| - 1;
      var last := records[n];
      SchedulesMeaning(s, records[..n]);
      assert records == records[..n] + [last];
      var before := Schedules(s, records[..n]);
      if last !in s.pending && last in s.alerts {
        assert Schedules(s, records) == before + [Schedule(last, Delay(s.alerts[last]))];
        assert Schedule(last, Delay(s.alerts[last])) in Schedules(s, records);
      } else {
        assert Schedules(s, records) == before;
      }
      forall id | id in records && id !in s.pending.Keys && id in s.alerts ensures exists t :: t in Schedules(s, records) && t.alert == id {
        if id != last {
          var t :| t in before && t.alert == id;
          assert t in Schedules(s, records);
        }
      }
    }
  }

  /** A tick sends exactly the visited alerts whose time has passed, and takes them off. */
  lemma {:induction false} TickMeaning(s: State, order: seq<string>, at: int)
    ensures var t := Tick(s, order, at);
            && (forall id :: id in t.pending <==> id in s.pending && !(id in order && at > s.pending[id]))
            && (forall id :: id in t.pending ==> t.pending[id] == s.pending[id])
            && t.alerts.Keys == s.alerts.Keys && s.log <= t.log
            && (forall id :: id in s.alerts && id in s.pending && id in order && at > s.pending[id] ==>
                  t.alerts[id].triggered && SentDown(id, at) in t.log[|s.log|..])
            && (forall e :: e in t.log[|s.log|..] ==>
                  e.SentDown? && e.at == at && e.alert in order && e.alert in s.pending && at > s.pending[e.alert])
  {
    if order != [] {
      var n := |order| - 1;
      TickMeaning(s, order[..n], at);
      assert order == order[..n] + [order[n]];
      var before := Tick(s, order[..n], at);
      assert (before.log + [SentDown(order[n], at)])[|s.log|..] == before.log[|s.log|..] + [SentDown(order[n], at)];
    }
  }

  // ----- as the alert manager does it

  class AlertManager {
    var alerts: map<string, Alert>
    var pendingAlerts: map<string, int>
    var alertQueue: seq<Task>
    var log: seq<Entry>

    function Value(): State
      reads this
    {
      State(alerts, pendingAlerts, alertQueue, log)
    }

    constructor (alerts: map<string, Alert>)
      ensures Value() == State(alerts, map[], [], [])
    {
      this.alerts, pendingAlerts, alertQueue, log := alerts, map[], [], [];
    }

    /** `HandleStatusAlerts` for a system reported down; `records` are its status alerts. */
    method HandleSystemDown(system: string, records: seq<string>, at: int)
      requires forall id :: id in records ==> id in alerts
      modifies this`alertQueue, this`log
      ensures Value() == OnDown(old(Value()), system, records, at)
      ensures log == old(log) + [Down(system, at)] && old(alertQueue) <= alertQueue
      ensures SchedulesAll(alerts, pendingAlerts.Keys, records, alertQueue[old(|alertQueue|)..])
    {
      SchedulesMeaning(Value(), records);
      log := log + [Down(system, at)];
      for i := 0 to |records|
        invariant log == old(log) + [Down(system, at)]
        invariant alertQueue == old(alertQueue) + Schedules(old(Value()), records[..i])
      {
        assert records[..i + 1][..i] == records[..i];
        if records[i] in pendingAlerts {
          continue;
        }
        var min := if alerts[records[i]].minutes > 1 then alerts[records[i]].minutes else 1;
        alertQueue := alertQueue + [Schedule(records[i], min * MINUTE)];
      }
      assert records[..|records|] == records;
    }

    method SendStatusAlert(up: bool, alert: string, at: int)
      modifies this`alerts, this`log
      ensures Value() == if up then SendUp(old(Value()), alert, at) else SendDown(old(Value()), alert, at)
    {
      if alert in alerts {
        alerts := alerts[alert := alerts[alert].(triggered := !up)];
        log := log + [if up then SentUp(alert, at) else SentDown(alert, at)];
      }
    }

    /** `HandleStatusAlerts` for a system reported up. */
    method HandleSystemUp(system: string, records: seq<string>, at: int)
      modifies this`alerts, this`alertQueue, this`log
      ensures Value() == OnUp(old(Value()), system, records, at)
    {
      log := log + [Up(system, at)];
      ghost var first := Value();
      for i := 0 to |records|
        invariant Value() == HandleUp(first, records[..i], at)
      {
        assert records[..i + 1][..i] == records[..i];
        if records[i] in pendingAlerts {
          alertQueue := alertQueue + [Cancel(records[i])];
          continue;
        }
        SendStatusAlert(true, records[i], at);
      }
      assert records[..|records|] == records;
    }

    /** The worker's case for a queue entry. */
    method ProcessTask(at: int)
      requires alertQueue != []
      modifies this`pendingAlerts, this`alertQueue
      ensures Value() == Process(old(Value()), at)
      ensures alertQueue == old(alertQueue)[1..]
      ensures match old(alertQueue)[0]
              case Schedule(alert, delay) => pendingAlerts == old(pendingAlerts)[alert := at + delay]
              case Cancel(alert) => pendingAlerts == old(pendingAlerts) - {alert}
    {
      var task := alertQueue[0];
      alertQueue := alertQueue[1..];
      match task {
        case Schedule(alert, delay) =>
          pendingAlerts := pendingAlerts[alert := at + delay];
        case Cancel(alert) =>
          pendingAlerts := pendingAlerts - {alert};
      }
    }

    /** The worker's case for its ticker; `order` is the order in which the map is visited. */
    method ProcessPendingAlerts(order: seq<string>, at: int)
      modifies this`alerts, this`pendingAlerts, this`log
      ensures Value() == Tick(old(Value()), order, at)
      ensures forall id :: id in pendingAlerts <==> id in old(pendingAlerts) && !(id in order && at > old(pendingAlerts)[id])
      ensures forall id :: id in pendingAlerts ==> pendingAlerts[id] == old(pendingAlerts)[id]
      ensures old(log) <= log
      ensures forall id :: id in old(alerts) && id in old(pendingAlerts) && id in order && at > old(pendingAlerts)[id] ==>
                id in alerts && alerts[id].triggered && SentDown(id, at) in log[old(|log|)..]
      ensures forall e :: e in log[old(|log|)..] ==>
                e.SentDown? && e.at == at && e.alert in order && e.alert in old(pendingAlerts) && at > old(pendingAlerts)[e.alert]
    {
      TickMeaning(Value(), order, at);
      for i := 0 to |order|
        invariant Value() == Tick(old(Value()), order[..i], at)
      {
        assert order[..i + 1][..i] == order[..i];
        if order[i] in pendingAlerts && at > pendingAlerts[order[i]] {
          SendStatusAlert(false, order[i], at);
          pendingAlerts := pendingAlerts - {order[i]};
        }
      }
      assert order[..|order|] == order;
    }
  }

  // ----- runs

  datatype Event =
    | ReportDown(system: string, records: seq<string>, at: int)
    | ReportUp(system: string, records: seq<string>, at: int)
    | Work(at: int)
    | TickAt(order: seq<string>, at: int)
    | Repair(up: set<string>, at: int)

  function Step(s: State, e: Event): State {
    match e
    case ReportDown(system, records, at) => OnDown(s, system, records, at)
    case ReportUp(system, records, at) => OnUp(s, system, records, at)
    case Work(at) => Process(s, at)
    case TickAt(order, at) => Tick(s, order, at)
    case Repair(up, _) => Resolve(s, up)
  }

  function Run(s: State, es: seq<Event>): State
    decreases |es|
  {
    if es == [] then s else Run(Step(s, es[0]), es[1..])
  }

  predicate Distinct(records: seq<string>) {
    forall i, j :: 0 <= i < j < |records| ==> records[i] != records[j]
  }

  /** The query for a system's status alerts returns each of them, once. */
  ghost predicate AllRecords(s: State, system: string, records: seq<string>) {
    && (forall id :: id in records <==> id in s.alerts && s.alerts[id].system == system)
    && Distinct(records)
  }

  /** The queue is worked off before the next report, and time does not go back. */
  ghost predicate Orderly(s: State, e: Event, clock: int) {
    && clock <= e.at
    && (e.ReportDown? || e.ReportUp? ==> s.queue == [] && AllRecords(s, e.system, e.records))
  }

  // ----- one alert on its own

  /** What the log says about one alert: reports on its system, and its own notifications. */
  datatype Mark = WentDown(at: int) | WentUp(at: int) | ToldDown(at: int) | ToldUp(at: int)

  function MarkOf(e: Entry, alert: string, system: string): Option<Mark> {
    match e
    case Down(sys, at) => if sys == system then Some(WentDown(at)) else None
    case Up(sys, at) => if sys == system then Some(WentUp(at)) else None
    case SentDown(id, at) => if id == alert then Some(ToldDown(at)) else None
    case SentUp(id, at) => if id == alert then Some(ToldUp(at)) else None
  }

  function Marks(log: seq<Entry>, alert: string, system: string): seq<Mark> {
    var n := |log| - 1;
    if log == [] then []
    else
      Marks(log[..n], alert, system) +
      match MarkOf(log[n], alert, system) case Some(m) => [m] case None => []
  }

  lemma MarksNext(log: seq<Entry>, e: Entry, alert: string, system: string)
    ensures Marks(log + [e], alert, system)
         == Marks(log, alert, system) + match MarkOf(e, alert, system) case Some(m) => [m] case None => []
  {
    assert (log + [e])[..|log|] == log;
  }

  /** The first task in the queue for this alert. */
  function Queued(queue: seq<Task>, alert: string): Option<Task> {
    if queue == [] then None
    else if queue[0].alert == alert then Some(queue[0])
    else Queued(queue[1..], alert)
  }

  predicate DistinctQueue(queue: seq<Task>) {
    forall i, j :: 0 <= i < j < |queue| ==> queue[i].alert != queue[j].alert
  }

  datatype Local = Local(marks: seq<Mark>, expires: Option<int>, task: Option<Task>, triggered: bool)

  function LocalView(s: State, alert: string): Local
    requires alert in s.alerts
  {
    Local(Marks(s.log, alert, s.alerts[alert].system),
          if alert in s.pending then Some(s.pending[alert]) else None,
          Queued(s.queue, alert),
          s.alerts[alert].triggered)
  }

  /** The delay that is running: the time of the first down report since the last up report or "down"
      notification. */
  function RunningSince(marks: seq<Mark>): Option<int> {
    var n := |marks| - 1;
    if marks == [] then None
    else
      match marks[n]
      case WentDown(at) => if RunningSince(marks[..n]) == None then Some(at) else RunningSince(marks[..n])
      case WentUp(_) => None
      case ToldDown(_) => None
      case ToldUp(_) => RunningSince(marks[..n])
  }

  lemma RunningSinceNext(marks: seq<Mark>, m: Mark)
    ensures RunningSince(marks + [m])
         == match m
            case WentDown(at) => if RunningSince(marks) == None then Some(at) else RunningSince(marks)
            case WentUp(_) => None
            case ToldDown(_) => None
            case ToldUp(_) => RunningSince(marks)
  {
    assert (marks + [m])[..|marks|] == marks;
  }

  /** What one event does to one alert. `mine` says that its task is the one being worked on. */
  function LocalStep(l: Local, alert: string, system: string, delay: int, e: Event, mine: bool): Local {
    match e
    case ReportDown(sys, _, at) =>
      if sys != system then l
      else l.(marks := l.marks + [WentDown(at)], task := if l.expires == None then Some(Schedule(alert, delay)) else l.task)
    case ReportUp(sys, _, at) =>
      if sys != system then l
      else if l.expires.Some? then l.(marks := l.marks + [WentUp(at)], task := Some(Cancel(alert)))
      else l.(marks := l.marks + [WentUp(at)] + [ToldUp(at)], triggered := false)
    case Work(at) => if mine then LocalWork(l, at) else l
    case TickAt(order, at) =>
      if alert in order && l.expires.Some? && at > l.expires.value
      then l.(marks := l.marks + [ToldDown(at)], expires := None, triggered := true)
      else l
    case Repair(up, _) => if system in up then l.(triggered := false) else l
  }

  function LocalWork(l: Local, at: int): Local {
    match l.task
    case None => l
    case Some(Schedule(_, d)) => l.(expires := Some(at + d), task := None)
    case Some(Cancel(_)) => l.(expires := None, task := None)
  }

  /** The head of the queue is for this alert. */
  predicate Mine(s: State, alert: string) {
    s.queue != [] && s.queue[0].alert == alert
  }

  /** Alerts keep their system and delay. */
  predicate SameAlerts(s: State, t: State) {
    && t.alerts.Keys == s.alerts.Keys
    && forall id :: id in s.alerts ==> t.alerts[id].system == s.alerts[id].system && t.alerts[id].minutes == s.alerts[id].minutes
  }

  lemma {:induction false} SchedulesOf(s: State, records: seq<string>, alert: string)
    requires Distinct(records)
    requires forall id :: id in records ==> id in s.alerts
    ensures DistinctQueue(Schedules(s, records))
    ensures forall t :: t in Schedules(s, records) ==> t.alert in records && t.alert !in s.pending && t.Schedule?
    ensures Queued(Schedules(s, records), alert)
         == if alert in records && alert !in s.pending then Some(Schedule(alert, Delay(s.alerts[alert]))) else None
  {
    if records != [] {
      var n := |records| - 1;
      SchedulesOf(s, records[..n], alert);
      assert records == records[..n] + [records[n]];
      var before := Schedules(s, records[..n]);
      if records[n] !in s.pending {
        QueuedAppend(before, Schedule(records[n], Delay(s.alerts[records[n]])), alert);
      } else {
        assert before + [] == before;
      }
    }
  }

  lemma {:induction false} QueuedAppend(queue: seq<Task>, t: Task, alert: string)
    ensures Queued(queue + [t], alert)
         == if Queued(queue, alert).Some? then Queued(queue, alert) else if t.alert == alert then Some(t) else None
  {
    if queue != [] {
      assert (queue + [t])[1..] == queue[1..] + [t];
      QueuedAppend(queue[1..], t, alert);
    }
  }

  lemma {:induction false} QueuedNone(queue: seq<Task>, alert: string)
    ensures Queued(queue, alert) == None <==> forall t :: t in queue ==> t.alert != alert
  {
    if queue != [] {
      QueuedNone(queue[1..], alert);
      assert queue == [queue[0]] + queue[1..];
    }
  }

  lemma {:induction false} HandleUpKeeps(s: State, records: seq<string>, at: int)
    ensures HandleUp(s, records, at).pending == s.pending
    ensures SameAlerts(s, HandleUp(s, records, at))
  {
    if records != [] {
      HandleUpKeeps(s, records[..|records| - 1], at);
    }
  }

  /** Only the alerts handled get a task. */
  lemma {:induction false} HandleUpQueue(s: State, records: seq<string>, at: int, alert: string)
    requires DistinctQueue(s.queue) && Distinct(records)
    requires forall task :: task in s.queue ==> task.alert !in records
    ensures DistinctQueue(HandleUp(s, records, at).queue)
    ensures forall task :: task in HandleUp(s, records, at).queue ==> task in s.queue || task.alert in records
    ensures Queued(HandleUp(s, records, at).queue, alert)
         == if alert in records && alert in s.pending then Some(Cancel(alert)) else Queued(s.queue, alert)
  {
    if records != [] {
      var n := |records| - 1;
      assert records == records[..n] + [records[n]];
      HandleUpQueue(s, records[..n], at, alert);
      HandleUpKeeps(s, records[..n], at);
      QueuedNone(s.queue, records[n]);
      QueuedAppend(HandleUp(s, records[..n], at).queue, Cancel(records[n]), alert);
    }
  }

  lemma SendUpMarks(s: State, id: string, at: int, alert: string, system: string)
    requires alert in s.alerts
    ensures var t := SendUp(s, id, at);
            && t.alerts.Keys == s.alerts.Keys
            && Marks(t.log, alert, system) == Marks(s.log, alert, system) + (if id == alert then [ToldUp(at)] else [])
            && t.alerts[alert].triggered == (s.alerts[alert].triggered && id != alert)
  {
    if id in s.alerts { MarksNext(s.log, SentUp(id, at), alert, system); }
  }

  lemma {:induction false} HandleUpMarks(s: State, records: seq<string>, at: int, alert: string, system: string)
    requires alert in s.alerts && Distinct(records)
    ensures SameAlerts(s, HandleUp(s, records, at))
    ensures Marks(HandleUp(s, records, at).log, alert, system)
         == Marks(s.log, alert, system) + if alert in records && alert !in s.pending then [ToldUp(at)] else []
    ensures HandleUp(s, records, at).alerts[alert].triggered
         == (s.alerts[alert].triggered && !(alert in records && alert !in s.pending))
  {
    hide Marks, SendUp;
    HandleUpKeeps(s, records, at);
    if records != [] {
      var n := |records| - 1;
      assert records == records[..n] + [records[n]];
      HandleUpMarks(s, records[..n], at, alert, system);
      HandleUpKeeps(s, records[..n], at);
      SendUpMarks(HandleUp(s, records[..n], at), records[n], at, alert, system);
    }
  }

  lemma {:induction false} TickKeeps(s: State, order: seq<string>, at: int)
    ensures Tick(s, order, at).queue == s.queue
    ensures SameAlerts(s, Tick(s, order, at))
  {
    if order != [] {
      TickKeeps(s, order[..|order| - 1], at);
    }
  }

  predicate Sends(s: State, order: seq<string>, at: int, alert: string) {
    alert in order && alert in s.pending && at > s.pending[alert]
  }

  lemma {:induction false} TickPending(s: State, order: seq<string>, at: int, alert: string)
    ensures alert in Tick(s, order, at).pending <==> alert in s.pending && !Sends(s, order, at, alert)
    ensures alert in Tick(s, order, at).pending ==> Tick(s, order, at).pending[alert] == s.pending[alert]
  {
    if order != [] {
      var n := |order| - 1;
      assert order == order[..n] + [order[n]];
      TickPending(s, order[..n], at, alert);
    }
  }

  lemma SendDownMarks(s: State, id: string, at: int, alert: string, system: string)
    requires alert in s.alerts
    ensures var t := SendDown(s, id, at);
            && t.alerts.Keys == s.alerts.Keys
            && Marks(t.log, alert, system) == Marks(s.log, alert, system) + (if id == alert then [ToldDown(at)] else [])
            && t.alerts[alert].triggered == (s.alerts[alert].triggered || id == alert)
  {
    if id in s.alerts { MarksNext(s.log, SentDown(id, at), alert, system); }
  }

  lemma {:induction false} TickMarks(s: State, order: seq<string>, at: int, alert: string, system: string)
    requires alert in s.alerts
    ensures SameAlerts(s, Tick(s, order, at))
    ensures Marks(Tick(s, order, at).log, alert, system)
         == Marks(s.log, alert, system) + if Sends(s, order, at, alert) then [ToldDown(at)] else []
    ensures Tick(s, order, at).alerts[alert].triggered == (s.alerts[alert].triggered || Sends(s, order, at, alert))
  {
    hide Marks, SendDown;
    TickKeeps(s, order, at);
    if order != [] {
      var n := |order| - 1;
      assert order == order[..n] + [order[n]];
      TickMarks(s, order[..n], at, alert, system);
      TickPending(s, order[..n], at, order[n]);
      TickPending(s, order[..n], at, alert);
      SendDownMarks(Tick(s, order[..n], at), order[n], at, alert, system);
    }
  }

  lemma OnDownQueue(s: State, system: string, records: seq<string>, at: int, alert: string)
    requires alert in s.alerts && s.queue == [] && AllRecords(s, system, records)
    ensures DistinctQueue(OnDown(s, system, records, at).queue)
    ensures Queued(OnDown(s, system, records, at).queue, alert)
         == if s.alerts[alert].system == system && alert !in s.pending then Some(Schedule(alert, Delay(s.alerts[alert]))) else None
  {
    SchedulesOf(s, records, alert);
    assert s.queue + Schedules(s, records) == Schedules(s, records);
  }

  lemma OnDownMarks(s: State, system: string, records: seq<string>, at: int, alert: string)
    requires alert in s.alerts
    ensures var marks := Marks(s.log, alert, s.alerts[alert].system);
            Marks(OnDown(s, system, records, at).log, alert, s.alerts[alert].system)
            == if s.alerts[alert].system == system then marks + [WentDown(at)] else marks
  {
    MarksNext(s.log, Down(system, at), alert, s.alerts[alert].system);
    var marks := Marks(s.log, alert, s.alerts[alert].system);
    assert marks + [] == marks;
  }

  lemma OnDownIsLocal(s: State, system: string, records: seq<string>, at: int, alert: string)
    requires alert in s.alerts && s.queue == [] && AllRecords(s, system, records)
    ensures var a := s.alerts[alert];
            DistinctQueue(OnDown(s, system, records, at).queue)
            && LocalView(OnDown(s, system, records, at), alert)
               == LocalStep(LocalView(s, alert), alert, a.system, Delay(a), ReportDown(system, records, at), Mine(s, alert))
  {
    OnDownQueue(s, system, records, at, alert);
    OnDownMarks(s, system, records, at, alert);
    hide Marks, Schedules, AllRecords, DistinctQueue;
  }

  lemma OnUpQueue(s: State, system: string, records: seq<string>, at: int, alert: string)
    requires alert in s.alerts && s.queue == [] && AllRecords(s, system, records)
    ensures DistinctQueue(OnUp(s, system, records, at).queue)
    ensures Queued(OnUp(s, system, records, at).queue, alert)
         == if s.alerts[alert].system == system && alert in s.pending then Some(Cancel(alert)) else None
  {
    HandleUpQueue(s.(log := s.log + [Up(system, at)]), records, at, alert);
  }

  lemma OnUpMarks(s: State, system: string, records: seq<string>, at: int, alert: string)
    requires alert in s.alerts && AllRecords(s, system, records)
    ensures OnUp(s, system, records, at).pending == s.pending
    ensures SameAlerts(s, OnUp(s, system, records, at))
    ensures var marks := Marks(s.log, alert, s.alerts[alert].system);
            Marks(OnUp(s, system, records, at).log, alert, s.alerts[alert].system)
            == if s.alerts[alert].system != system then marks
               else if alert in s.pending then marks + [WentUp(at)]
               else marks + [WentUp(at)] + [ToldUp(at)]
    ensures OnUp(s, system, records, at).alerts[alert].triggered
         == (s.alerts[alert].triggered && !(s.alerts[alert].system == system && alert !in s.pending))
  {
    var first := s.(log := s.log + [Up(system, at)]);
    HandleUpKeeps(first, records, at);
    HandleUpMarks(first, records, at, alert, s.alerts[alert].system);
    MarksNext(s.log, Up(system, at), alert, s.alerts[alert].system);
    var marks := Marks(s.log, alert, s.alerts[alert].system);
    assert marks + [] == marks;
    assert marks + [WentUp(at)] + [] == marks + [WentUp(at)];
  }

  lemma OnUpIsLocal(s: State, system: string, records: seq<string>, at: int, alert: string)
    requires alert in s.alerts && s.queue == [] && AllRecords(s, system, records)
    ensures var a := s.alerts[alert];
            SameAlerts(s, OnUp(s, system, records, at))
            && DistinctQueue(OnUp(s, system, records, at).queue)
            && LocalView(OnUp(s, system, records, at), alert)
               == LocalStep(LocalView(s, alert), alert, a.system, Delay(a), ReportUp(system, records, at), Mine(s, alert))
  {
    OnUpQueue(s, system, records, at, alert);
    OnUpMarks(s, system, records, at, alert);
  }

  lemma ProcessIsLocal(s: State, at: int, alert: string)
    requires alert in s.alerts && DistinctQueue(s.queue)
    ensures var a := s.alerts[alert];
            DistinctQueue(Process(s, at).queue)
            && LocalView(Process(s, at), alert)
               == LocalStep(LocalView(s, alert), alert, a.system, Delay(a), Work(at), Mine(s, alert))
  {
    if s.queue != [] {
      QueuedNone(s.queue[1..], alert);
      assert s.queue == [s.queue[0]] + s.queue[1..];
      assert forall t :: t in s.queue[1..] ==> t.alert != s.queue[0].alert;
    }
  }

  lemma TickIsLocal(s: State, order: seq<string>, at: int, alert: string)
    requires alert in s.alerts
    ensures var a := s.alerts[alert];
            SameAlerts(s, Tick(s, order, at)) && Tick(s, order, at).queue == s.queue
            && LocalView(Tick(s, order, at), alert)
               == LocalStep(LocalView(s, alert), alert, a.system, Delay(a), TickAt(order, at), Mine(s, alert))
  {
    TickKeeps(s, order, at);
    TickPending(s, order, at, alert);
    TickMarks(s, order, at, alert, s.alerts[alert].system);
    var marks := Marks(s.log, alert, s.alerts[alert].system);
    assert marks + [] == marks;
  }

  /** In an orderly run, an event does to an alert what it does to that alert alone, whatever else is
      pending or queued. */
  lemma StepIsLocal(s: State, e: Event, clock: int, alert: string)
    requires alert in s.alerts && DistinctQueue(s.queue) && Orderly(s, e, clock)
    ensures SameAlerts(s, Step(s, e)) && DistinctQueue(Step(s, e).queue)
    ensures LocalView(Step(s, e), alert)
         == LocalStep(LocalView(s, alert), alert, s.alerts[alert].system, Delay(s.alerts[alert]), e, Mine(s, alert))
  {
    match e
    case ReportDown(system, records, at) => OnDownIsLocal(s, system, records, at, alert);
    case ReportUp(system, records, at) => OnUpIsLocal(s, system, records, at, alert);
    case Work(at) => ProcessIsLocal(s, at, alert);
    case TickAt(order, at) => TickIsLocal(s, order, at, alert);
    case Repair(_, _) =>
  }

  // ----- what holds of one alert

  function LastReportDown(marks: seq<Mark>): bool {
    var n := |marks| - 1;
    if marks == [] then false
    else if marks[n].WentDown? then true
    else if marks[n].WentUp? then false
    else LastReportDown(marks[..n])
  }

  lemma LastReportNext(marks: seq<Mark>, m: Mark)
    ensures LastReportDown(marks + [m]) == if m.WentDown? then true else if m.WentUp? then false else LastReportDown(marks)
  {
    assert (marks + [m])[..|marks|] == marks;
  }

  /** Nothing queued: an expiry is pending exactly while a delay runs, and is no earlier than its end. A
      cancellation is queued by the up report that ended the delay. */
  predicate Consistent(l: Local, alert: string, delay: int, clock: int) {
    var since := RunningSince(l.marks);
    match l.task
    case Some(Schedule(id, d)) => id == alert && d == delay && l.expires == None && since.Some? && since.value <= clock
    case Some(Cancel(id)) => id == alert && since == None && !LastReportDown(l.marks)
    case None => l.expires.Some? == since.Some? && (since.Some? ==> since.value + delay <= l.expires.value)
  }

  lemma StepKeepsConsistent(l: Local, alert: string, system: string, delay: int, e: Event, mine: bool, clock: int)
    requires Consistent(l, alert, delay, clock) && clock <= e.at
    requires e.ReportDown? || e.ReportUp? ==> l.task == None
    requires mine ==> l.task.Some?
    ensures Consistent(LocalStep(l, alert, system, delay, e, mine), alert, delay, e.at)
  {
    hide RunningSince, LastReportDown;
    RunningSinceNext(l.marks, WentDown(e.at));
    RunningSinceNext(l.marks, WentUp(e.at));
    RunningSinceNext(l.marks + [WentUp(e.at)], ToldUp(e.at));
    RunningSinceNext(l.marks, ToldDown(e.at));
    LastReportNext(l.marks, WentUp(e.at));
    LastReportNext(l.marks, ToldDown(e.at));
  }

  // ----- notifications

  /** The mark at `i` is justified by what comes before it (or, for an up report, answered by what comes
      next): a "down" ends a delay that ran its full length; an "up" directly follows an up report
      during no delay; and such a report, unlike one during a delay, is followed by one. */
  predicate FaithfulAt(marks: seq<Mark>, i: nat, delay: int)
    requires i < |marks|
  {
    match marks[i]
    case WentDown(_) => true
    case ToldDown(at) => RunningSince(marks[..i]).Some? && RunningSince(marks[..i]).value + delay < at
    case ToldUp(at) => i > 0 && marks[i - 1] == WentUp(at) && RunningSince(marks[..i - 1]) == None
    case WentUp(at) =>
      i + 1 < |marks| ==> (RunningSince(marks[..i]) == None <==> marks[i + 1] == ToldUp(at))
  }

  ghost predicate Faithful(marks: seq<Mark>, delay: int) {
    forall i: nat :: i < |marks| ==> FaithfulAt(marks, i, delay)
  }

  /** A "down" with no delay running: the up report that ended it has been overtaken. */
  predicate OvertakenAt(marks: seq<Mark>, i: nat)
    requires i < |marks|
  {
    marks[i].ToldDown? && RunningSince(marks[..i]) == None && !LastReportDown(marks[..i])
  }

  ghost predicate HasOvertaken(marks: seq<Mark>) {
    exists i: nat :: i < |marks| && OvertakenAt(marks, i)
  }

  /** Faithful but for overtaken marks. */
  ghost predicate Answered(marks: seq<Mark>, delay: int) {
    forall i: nat :: i < |marks| ==> FaithfulAt(marks, i, delay) || OvertakenAt(marks, i)
  }

  lemma FaithfulUnlessOvertaken(marks: seq<Mark>, delay: int)
    requires Answered(marks, delay)
    ensures Faithful(marks, delay) <==> !HasOvertaken(marks)
  {
    if i: nat :| i < |marks| && OvertakenAt(marks, i) {
      assert !FaithfulAt(marks, i, delay);
    }
  }

  /** The last mark is an up report still to be answered. */
  predicate Unanswered(marks: seq<Mark>) {
    marks != [] && marks[|marks| - 1].WentUp? && RunningSince(marks[..|marks| - 1]) == None
  }

  lemma AnsweredNext(marks: seq<Mark>, m: Mark, delay: int)
    requires Answered(marks, delay)
    requires FaithfulAt(marks + [m], |marks|, delay) || OvertakenAt(marks + [m], |marks|)
    requires marks != [] && marks[|marks| - 1].WentUp? ==>
               (Unanswered(marks) <==> m == ToldUp(marks[|marks| - 1].at))
    ensures Answered(marks + [m], delay)
  {
    var next := marks + [m];
    forall i: nat | i < |next| ensures FaithfulAt(next, i, delay) || OvertakenAt(next, i) {
      if i < |marks| {
        assert FaithfulAt(marks, i, delay) || OvertakenAt(marks, i);
        assert next[..i] == marks[..i];
        if i > 0 { assert next[..i - 1] == marks[..i - 1]; }
      }
    }
  }

  lemma OvertakenNext(marks: seq<Mark>, m: Mark)
    ensures HasOvertaken(marks + [m])
       <==> HasOvertaken(marks) || (m.ToldDown? && RunningSince(marks) == None && !LastReportDown(marks))
  {
    var next := marks + [m];
    assert next[..|marks|] == marks;
    assert OvertakenAt(next, |marks|) <==> m.ToldDown? && RunningSince(marks) == None && !LastReportDown(marks);
    forall i: nat | i < |marks| ensures OvertakenAt(next, i) == OvertakenAt(marks, i) {
      assert next[..i] == marks[..i];
    }
    if i: nat :| i < |marks| && OvertakenAt(marks, i) {
      assert OvertakenAt(next, i);
    }
  }

  /** The event is a tick that finds the alert expired. */
  predicate Expires(l: Local, alert: string, e: Event) {
    e.TickAt? && alert in e.order && l.expires.Some? && e.at > l.expires.value
  }

  lemma StepKeepsAnswered(l: Local, alert: string, system: string, delay: int, e: Event, mine: bool, clock: int)
    requires Consistent(l, alert, delay, clock)
    requires e.ReportDown? || e.ReportUp? ==> l.task == None
    requires Answered(l.marks, delay) && !Unanswered(l.marks)
    ensures Answered(LocalStep(l, alert, system, delay, e, mine).marks, delay)
    ensures !Unanswered(LocalStep(l, alert, system, delay, e, mine).marks)
  {
    var n := |l.marks|;
    match e
    case ReportDown(sys, _, at) =>
      if sys == system { AnsweredNext(l.marks, WentDown(at), delay); }
    case ReportUp(sys, _, at) =>
      if sys == system {
        assert (l.marks + [WentUp(at)])[..n] == l.marks;
        AnsweredNext(l.marks, WentUp(at), delay);
        if l.expires == None {
          assert (l.marks + [WentUp(at)] + [ToldUp(at)])[..n] == l.marks;
          AnsweredNext(l.marks + [WentUp(at)], ToldUp(at), delay);
        }
      }
    case Work(_) =>
    case TickAt(order, at) =>
      if Expires(l, alert, e) {
        assert (l.marks + [ToldDown(at)])[..n] == l.marks;
        AnsweredNext(l.marks, ToldDown(at), delay);
      }
    case Repair(_, _) =>
  }

  /** A step overtakes an up report exactly when it is a tick that finds the alert expired while its
      cancellation is queued. */
  lemma StepOvertakesExactly(l: Local, alert: string, system: string, delay: int, e: Event, mine: bool, clock: int)
    requires Consistent(l, alert, delay, clock)
    ensures HasOvertaken(LocalStep(l, alert, system, delay, e, mine).marks)
       <==> HasOvertaken(l.marks) || (Expires(l, alert, e) && l.task == Some(Cancel(alert)))
  {
    hide RunningSince, LastReportDown, HasOvertaken;
    OvertakenNext(l.marks, WentDown(e.at));
    OvertakenNext(l.marks, WentUp(e.at));
    OvertakenNext(l.marks + [WentUp(e.at)], ToldUp(e.at));
    OvertakenNext(l.marks, ToldDown(e.at));
  }

  // ----- runs

  ghost predicate OrderlyRun(s: State, es: seq<Event>, clock: int)
    decreases |es|
  {
    es == [] || (Orderly(s, es[0], clock) && OrderlyRun(Step(s, es[0]), es[1..], es[0].at))
  }

  /** The event is a tick that finds the alert expired while its cancellation is queued. */
  predicate Overtakes(s: State, e: Event, alert: string) {
    e.TickAt? && Sends(s, e.order, e.at, alert) && Queued(s.queue, alert) == Some(Cancel(alert))
  }

  predicate OvertakenIn(s: State, es: seq<Event>, alert: string)
    decreases |es|
  {
    es != [] && (Overtakes(s, es[0], alert) || OvertakenIn(Step(s, es[0]), es[1..], alert))
  }

  ghost predicate Good(s: State, alert: string, clock: int) {
    && alert in s.alerts && DistinctQueue(s.queue)
    && var l := LocalView(s, alert);
      Consistent(l, alert, Delay(s.alerts[alert]), clock)
      && Answered(l.marks, Delay(s.alerts[alert])) && !Unanswered(l.marks)
  }

  lemma StepKeepsGood(s: State, e: Event, clock: int, alert: string)
    requires Good(s, alert, clock) && Orderly(s, e, clock)
    ensures Good(Step(s, e), alert, e.at)
    ensures SameAlerts(s, Step(s, e))
    ensures HasOvertaken(LocalView(Step(s, e), alert).marks) <==> HasOvertaken(LocalView(s, alert).marks) || Overtakes(s, e, alert)
  {
    var a := s.alerts[alert];
    var l := LocalView(s, alert);
    StepIsLocal(s, e, clock, alert);
    hide LocalStep, Step, Consistent, Answered, HasOvertaken, Unanswered;
    StepKeepsConsistent(l, alert, a.system, Delay(a), e, Mine(s, alert), clock);
    StepKeepsAnswered(l, alert, a.system, Delay(a), e, Mine(s, alert), clock);
    StepOvertakesExactly(l, alert, a.system, Delay(a), e, Mine(s, alert), clock);
  }

  function ClockAfter(es: seq<Event>, clock: int): int {
    if es == [] then clock else es[|es| - 1].at
  }

  lemma {:induction false} RunKeepsGood(s: State, es: seq<Event>, clock: int, alert: string)
    requires Good(s, alert, clock) && OrderlyRun(s, es, clock)
    ensures Good(Run(s, es), alert, ClockAfter(es, clock))
    ensures SameAlerts(s, Run(s, es))
    ensures HasOvertaken(LocalView(Run(s, es), alert).marks) <==> HasOvertaken(LocalView(s, alert).marks) || OvertakenIn(s, es, alert)
    decreases |es|
  {
    hide Good, HasOvertaken, Overtakes, Step;
    if es != [] {
      StepKeepsGood(s, es[0], clock, alert);
      RunKeepsGood(Step(s, es[0]), es[1..], es[0].at, alert);
    }
  }

  function Fresh(alerts: map<string, Alert>): State {
    State(alerts, map[], [], [])
  }

  lemma FreshIsGood(alerts: map<string, Alert>, alert: string, clock: int)
    requires alert in alerts
    ensures Good(Fresh(alerts), alert, clock) && !HasOvertaken(LocalView(Fresh(alerts), alert).marks)
  {
  }

  /** Over every run in which the queue is worked off before the next report, a tick's "down" ends a delay that
      ran its full length if and only if the alert's cancellation is not still queued. */
  lemma TickIsJustifiedExactly(alerts: map<string, Alert>, es: seq<Event>, clock: int, order: seq<string>, at: int, alert: string)
    requires alert in alerts && OrderlyRun(Fresh(alerts), es, clock)
    requires Sends(Run(Fresh(alerts), es), order, at, alert)
    ensures var s := Run(Fresh(alerts), es);
            var since := RunningSince(Marks(s.log, alert, alerts[alert].system));
            (since.Some? && since.value + Delay(alerts[alert]) < at) <==> Queued(s.queue, alert) != Some(Cancel(alert))
  {
    FreshIsGood(alerts, alert, clock);
    RunKeepsGood(Fresh(alerts), es, clock, alert);
  }

  /** Over every such run, and for every alert: an up report during a delay is answered by nothing, any other
      by "up", and there is no other "up"; and each "down" ends a delay that started with its own down report,
      more than the configured minutes ago, with no up report since, if and only if no tick found the alert
      expired while its cancellation was queued. Every other "down" comes from such a tick. */
  lemma NotificationsAreFaithful(alerts: map<string, Alert>, es: seq<Event>, clock: int, alert: string)
    requires alert in alerts && OrderlyRun(Fresh(alerts), es, clock)
    ensures var marks := Marks(Run(Fresh(alerts), es).log, alert, alerts[alert].system);
            && Answered(marks, Delay(alerts[alert])) && !Unanswered(marks)
            && (HasOvertaken(marks) <==> OvertakenIn(Fresh(alerts), es, alert))
            && (Faithful(marks, Delay(alerts[alert])) <==> !OvertakenIn(Fresh(alerts), es, alert))
  {
    FreshIsGood(alerts, alert, clock);
    RunKeepsGood(Fresh(alerts), es, clock, alert);
    FaithfulUnlessOvertaken(Marks(Run(Fresh(alerts), es).log, alert, alerts[alert].system), Delay(alerts[alert]));
  }

  /** The queue is worked off before every tick, too. */
  predicate Prompt(s: State, es: seq<Event>)
    decreases |es|
  {
    es == [] || ((es[0].TickAt? ==> s.queue == []) && Prompt(Step(s, es[0]), es[1..]))
  }

  /** Then nothing is overtaken. */
  lemma {:induction false} PromptIsNotOvertaken(s: State, es: seq<Event>, alert: string)
    requires Prompt(s, es)
    ensures !OvertakenIn(s, es, alert)
    decreases |es|
  {
    if es != [] { PromptIsNotOvertaken(Step(s, es[0]), es[1..], alert); }
  }

  /** What a running delay is: its down report is in the log, with neither an up report nor a "down"
      notification after it. */
  lemma {:induction false} RunningSinceMeaning(marks: seq<Mark>)
    ensures match RunningSince(marks)
            case Some(at) => exists i :: 0 <= i < |marks| && marks[i] == WentDown(at) && QuietAfter(marks, i)
            case None => forall i :: 0 <= i < |marks| && marks[i].WentDown? ==> !QuietAfter(marks, i)
  {
    if marks != [] {
      var n := |marks| - 1;
      var before := marks[..n];
      RunningSinceMeaning(before);
      forall i | 0 <= i < n ensures QuietAfter(marks, i) <==> QuietAfter(before, i) && !marks[n].WentUp? && !marks[n].ToldDown? {
        if QuietAfter(marks, i) {
          assert forall j :: i < j < n ==> before[j] == marks[j];
        }
      }
      assert QuietAfter(marks, n);
    }
  }

  ghost predicate QuietAfter(marks: seq<Mark>, i: int)
    requires 0 <= i
  {
    forall j :: i < j < |marks| ==> !marks[j].WentUp? && !marks[j].ToldDown?
  }

  // ----- alternation

  function LastNoteDown(marks: seq<Mark>): bool {
    var n := |marks| - 1;
    if marks == [] then false
    else if marks[n].ToldDown? then true
    else if marks[n].ToldUp? then false
    else LastNoteDown(marks[..n])
  }

  predicate ReportFits(marks: seq<Mark>, i: nat)
    requires i < |marks|
  {
    (marks[i].WentDown? ==> !LastReportDown(marks[..i])) && (marks[i].WentUp? ==> LastReportDown(marks[..i]))
  }

  predicate NoteFits(marks: seq<Mark>, i: nat)
    requires i < |marks|
  {
    (marks[i].ToldDown? ==> !LastNoteDown(marks[..i])) && (marks[i].ToldUp? ==> LastNoteDown(marks[..i]))
  }

  /** Reports go down, up, down, ... */
  ghost predicate ReportsAlternate(marks: seq<Mark>) {
    forall i: nat :: i < |marks| ==> ReportFits(marks, i)
  }

  ghost predicate NotesAlternate(marks: seq<Mark>) {
    forall i: nat :: i < |marks| ==> NoteFits(marks, i)
  }

  /** While the system's last report is down, the last notification is "down" once no delay runs. */
  predicate InStep(marks: seq<Mark>) {
    LastNoteDown(marks) <==> (LastReportDown(marks) && RunningSince(marks) == None) || Unanswered(marks)
  }

  lemma InStepNext(before: seq<Mark>, m: Mark)
    requires InStep(before)
    requires m.ToldDown? ==> RunningSince(before).Some?
    requires m.ToldUp? <==> Unanswered(before)
    requires m.WentDown? ==> !LastReportDown(before)
    requires m.WentUp? ==> LastReportDown(before)
    ensures InStep(before + [m])
    ensures m.ToldDown? ==> !LastNoteDown(before)
    ensures m.ToldUp? ==> LastNoteDown(before)
  {
    assert (before + [m])[..|before|] == before;
    RunningSinceNext(before, m);
    assert Unanswered(before) ==> !LastReportDown(before);
  }

  lemma {:induction false} FaithfulBefore(marks: seq<Mark>, n: nat, delay: int)
    requires Faithful(marks, delay) && n < |marks|
    ensures Faithful(marks[..n], delay)
    ensures marks[n].ToldUp? <==> Unanswered(marks[..n])
  {
    forall i: nat | i < n ensures FaithfulAt(marks[..n], i, delay) {
      assert FaithfulAt(marks, i, delay);
      assert marks[..n][..i] == marks[..i];
      if i > 0 { assert marks[..n][..i - 1] == marks[..i - 1]; }
    }
    assert FaithfulAt(marks, n, delay);
    if n > 0 {
      assert FaithfulAt(marks, n - 1, delay);
      assert marks[..n][..n - 1] == marks[..n - 1];
    }
  }

  lemma {:induction false} AlternationCarriesOver(marks: seq<Mark>, delay: int)
    requires Faithful(marks, delay) && ReportsAlternate(marks)
    ensures NotesAlternate(marks) && InStep(marks)
  {
    if marks != [] {
      var n := |marks| - 1;
      var before := marks[..n];
      FaithfulBefore(marks, n, delay);
      forall i: nat | i < n ensures ReportFits(before, i) {
        assert ReportFits(marks, i);
        assert before[..i] == marks[..i];
      }
      AlternationCarriesOver(before, delay);
      assert FaithfulAt(marks, n, delay) && ReportFits(marks, n);
      InStepNext(before, marks[n]);
      assert marks == before + [marks[n]];
      forall i: nat | i < |marks| ensures NoteFits(marks, i) {
        if i < n {
          assert NoteFits(before, i);
          assert before[..i] == marks[..i];
        }
      }
    }
  }

  predicate IsNote(m: Mark) {
    m.ToldDown? || m.ToldUp?
  }

  /** No notification follows an overtaken one. */
  ghost predicate OvertakenIsLast(marks: seq<Mark>) {
    forall i: nat, j: nat :: i < j < |marks| && OvertakenAt(marks, i) ==> !IsNote(marks[j])
  }

  /** After an overtaken "down" and until the next notification, that "down" is the last one, and an outage has
      a delay running. */
  lemma {:induction false} AfterOvertaken(marks: seq<Mark>, i: nat, n: nat)
    requires i < n <= |marks| && OvertakenAt(marks, i)
    requires forall j :: i < j < n ==> !IsNote(marks[j])
    ensures LastNoteDown(marks[..n])
    ensures LastReportDown(marks[..n]) ==> RunningSince(marks[..n]).Some?
    decreases n
  {
    assert marks[..n][..n - 1] == marks[..n - 1];
    if i + 1 < n {
      AfterOvertaken(marks, i, n - 1);
    }
  }

  /** So the next one can only be "down" again. */
  lemma NextIsDown(marks: seq<Mark>, delay: int, i: nat, j: nat)
    requires Answered(marks, delay) && ReportsAlternate(marks)
    requires i < j < |marks| && OvertakenAt(marks, i) && IsNote(marks[j]) && forall h :: i < h < j ==> !IsNote(marks[h])
    ensures !NoteFits(marks, j)
  {
    AfterOvertaken(marks, i, j);
    if marks[j].ToldUp? {
      assert FaithfulAt(marks, j, delay) || OvertakenAt(marks, j);
      assert ReportFits(marks, j - 1);
      if i < j - 1 {
        AfterOvertaken(marks, i, j - 1);
      }
      assert false;
    }
  }

  lemma {:induction false} FirstNoteAfter(marks: seq<Mark>, i: nat, j: nat) returns (first: nat)
    requires i < j < |marks| && IsNote(marks[j])
    ensures i < first <= j && IsNote(marks[first]) && forall h :: i < h < first ==> !IsNote(marks[h])
    decreases j
  {
    first := j;
    if h :| i < h < j && IsNote(marks[h]) {
      first := FirstNoteAfter(marks, i, h);
    }
  }

  lemma FaithfulUpTo(marks: seq<Mark>, n: nat, delay: int)
    requires n <= |marks| && Answered(marks, delay) && forall h: nat :: h < n ==> !OvertakenAt(marks, h)
    ensures Faithful(marks[..n], delay)
  {
    forall h: nat | h < n ensures FaithfulAt(marks[..n], h, delay) {
      assert FaithfulAt(marks, h, delay);
      assert marks[..n][..h] == marks[..h];
      if h > 0 { assert marks[..n][..h - 1] == marks[..h - 1]; }
    }
  }

  lemma AlternatingUpTo(marks: seq<Mark>, n: nat)
    requires n <= |marks| && ReportsAlternate(marks)
    ensures ReportsAlternate(marks[..n])
  {
    forall h: nat | h < n ensures ReportFits(marks[..n], h) {
      assert ReportFits(marks, h);
      assert marks[..n][..h] == marks[..h];
    }
  }

  lemma {:induction false} FirstOvertaken(marks: seq<Mark>, i: nat) returns (first: nat)
    requires i < |marks| && OvertakenAt(marks, i)
    ensures first <= i && OvertakenAt(marks, first) && forall h: nat :: h < first ==> !OvertakenAt(marks, h)
    decreases i
  {
    first := i;
    if h: nat :| h < i && OvertakenAt(marks, h) {
      first := FirstOvertaken(marks, h);
    }
  }

  /** Up to the first overtaken "down", and that one included, notifications alternate. */
  lemma FitsUpToOvertaken(marks: seq<Mark>, delay: int, first: nat, i: nat)
    requires Answered(marks, delay) && ReportsAlternate(marks)
    requires i <= first < |marks| && OvertakenAt(marks, first) && forall h: nat :: h < first ==> !OvertakenAt(marks, h)
    ensures NoteFits(marks, i)
  {
    FaithfulUpTo(marks, first, delay);
    AlternatingUpTo(marks, first);
    AlternationCarriesOver(marks[..first], delay);
    if i < first {
      assert NoteFits(marks[..first], i);
      assert marks[..first][..i] == marks[..i];
    } else if first > 0 {
      assert FaithfulAt(marks, first - 1, delay);
      assert marks[..first][..first - 1] == marks[..first - 1];
    }
  }

  /** With alternating reports, notifications alternate if and only if nothing follows an overtaken "down". */
  lemma AlternationExactly(marks: seq<Mark>, delay: int)
    requires Answered(marks, delay) && ReportsAlternate(marks)
    ensures NotesAlternate(marks) <==> OvertakenIsLast(marks)
  {
    if i: nat :| i < |marks| && OvertakenAt(marks, i) {
      var first := FirstOvertaken(marks, i);
      if OvertakenIsLast(marks) {
        forall h: nat | h < |marks| ensures NoteFits(marks, h) {
          if h <= first {
            FitsUpToOvertaken(marks, delay, first, h);
          } else {
            assert !IsNote(marks[h]);
          }
        }
      } else {
        var o: nat, j: nat :| o < j < |marks| && OvertakenAt(marks, o) && IsNote(marks[j]);
        var next := FirstNoteAfter(marks, o, j);
        NextIsDown(marks, delay, o, next);
      }
    } else {
      FaithfulUnlessOvertaken(marks, delay);
      AlternationCarriesOver(marks, delay);
    }
  }

  /** If a system's reports alternate, starting with down, the notifications of each of its alerts alternate if
      and only if nothing follows an overtaken "down"; so they do when nothing is overtaken. */
  lemma NotificationsAlternate(alerts: map<string, Alert>, es: seq<Event>, clock: int, alert: string)
    requires alert in alerts && OrderlyRun(Fresh(alerts), es, clock)
    requires ReportsAlternate(Marks(Run(Fresh(alerts), es).log, alert, alerts[alert].system))
    ensures var marks := Marks(Run(Fresh(alerts), es).log, alert, alerts[alert].system);
            && (NotesAlternate(marks) <==> OvertakenIsLast(marks))
            && (!OvertakenIn(Fresh(alerts), es, alert) ==> NotesAlternate(marks))
  {
    NotificationsAreFaithful(alerts, es, clock, alert);
    AlternationExactly(Marks(Run(Fresh(alerts), es).log, alert, alerts[alert].system), Delay(alerts[alert]));
  }

  lemma StepKeepsTriggered(s: State, e: Event, clock: int, alert: string)
    requires Good(s, alert, clock) && Orderly(s, e, clock)
    requires s.alerts[alert].triggered ==> LastNoteDown(LocalView(s, alert).marks)
    ensures alert in Step(s, e).alerts
    ensures Step(s, e).alerts[alert].triggered ==> LastNoteDown(LocalView(Step(s, e), alert).marks)
    ensures !e.Repair? && (LastNoteDown(LocalView(s, alert).marks) ==> s.alerts[alert].triggered) ==>
              (LastNoteDown(LocalView(Step(s, e), alert).marks) ==> Step(s, e).alerts[alert].triggered)
  {
    StepIsLocal(s, e, clock, alert);
    var marks := LocalView(s, alert).marks;
    assert (marks + [WentDown(e.at)])[..|marks|] == marks;
    assert (marks + [WentUp(e.at)])[..|marks|] == marks;
    assert (marks + [ToldDown(e.at)])[..|marks|] == marks;
  }

  predicate HasRepair(es: seq<Event>) {
    exists e :: e in es && e.Repair?
  }

  lemma {:induction false} RunKeepsTriggered(s: State, es: seq<Event>, clock: int, alert: string)
    requires Good(s, alert, clock) && OrderlyRun(s, es, clock)
    requires s.alerts[alert].triggered ==> LastNoteDown(LocalView(s, alert).marks)
    ensures alert in Run(s, es).alerts
    ensures Run(s, es).alerts[alert].triggered ==> LastNoteDown(LocalView(Run(s, es), alert).marks)
    ensures !HasRepair(es) && (LastNoteDown(LocalView(s, alert).marks) ==> s.alerts[alert].triggered) ==>
              (LastNoteDown(LocalView(Run(s, es), alert).marks) ==> Run(s, es).alerts[alert].triggered)
    decreases |es|
  {
    if es != [] {
      StepKeepsGood(s, es[0], clock, alert);
      StepKeepsTriggered(s, es[0], clock, alert);
      RunKeepsTriggered(Step(s, es[0]), es[1..], es[0].at, alert);
    }
  }

  /** The last notification is an overtaken "down". */
  predicate LastNoteOvertaken(marks: seq<Mark>) {
    var n := |marks| - 1;
    marks != [] && if IsNote(marks[n]) then OvertakenAt(marks, n) else LastNoteOvertaken(marks[..n])
  }

  lemma {:induction false} RunningMeansDown(marks: seq<Mark>)
    ensures RunningSince(marks).Some? ==> LastReportDown(marks)
  {
    if marks != [] { RunningMeansDown(marks[..|marks| - 1]); }
  }

  /** Until an up report is answered, a last "down" that is not overtaken belongs to the outage going on. */
  lemma {:induction false} LastDownIsOwn(marks: seq<Mark>, delay: int, n: nat)
    requires Answered(marks, delay) && ReportsAlternate(marks) && n <= |marks|
    ensures LastNoteDown(marks[..n]) ==>
              LastNoteOvertaken(marks[..n]) || Unanswered(marks[..n])
              || (LastReportDown(marks[..n]) && RunningSince(marks[..n]) == None)
  {
    if n > 0 {
      var m, before := marks[n - 1], marks[..n - 1];
      assert marks[..n][..n - 1] == before;
      LastDownIsOwn(marks, delay, n - 1);
      RunningMeansDown(before);
      assert FaithfulAt(marks, n - 1, delay) || OvertakenAt(marks, n - 1);
      assert ReportFits(marks, n - 1);
      if Unanswered(before) {
        assert marks[..n - 1][..n - 2] == marks[..n - 2];
        assert FaithfulAt(marks, n - 2, delay);
      }
    }
  }

  lemma {:induction false} OvertakenIsDown(marks: seq<Mark>)
    requires LastNoteOvertaken(marks)
    ensures LastNoteDown(marks) && HasOvertaken(marks)
  {
    var n := |marks| - 1;
    if IsNote(marks[n]) {
      assert OvertakenAt(marks, n);
    } else {
      OvertakenIsDown(marks[..n]);
      var i: nat :| i < n && OvertakenAt(marks[..n], i);
      assert marks[..n][..i] == marks[..i];
      assert OvertakenAt(marks, i);
    }
  }

  /** With alternating reports, an alert is triggered while its system's last report is up only if its last
      notification is an overtaken "down", and if it is, unless a repair came in between; so the repair of
      systems that are up has nothing to do when nothing is overtaken. */
  lemma NothingToRepair(alerts: map<string, Alert>, es: seq<Event>, clock: int, alert: string)
    requires alert in alerts && !alerts[alert].triggered && OrderlyRun(Fresh(alerts), es, clock)
    requires ReportsAlternate(Marks(Run(Fresh(alerts), es).log, alert, alerts[alert].system))
    ensures alert in Run(Fresh(alerts), es).alerts
    ensures var marks := Marks(Run(Fresh(alerts), es).log, alert, alerts[alert].system);
            var triggered := Run(Fresh(alerts), es).alerts[alert].triggered;
            && (!LastReportDown(marks) && triggered ==> LastNoteOvertaken(marks))
            && (!HasRepair(es) && LastNoteOvertaken(marks) ==> triggered)
            && (!LastReportDown(marks) && triggered ==> OvertakenIn(Fresh(alerts), es, alert))
  {
    FreshIsGood(alerts, alert, clock);
    RunKeepsGood(Fresh(alerts), es, clock, alert);
    RunKeepsTriggered(Fresh(alerts), es, clock, alert);
    NotificationsAreFaithful(alerts, es, clock, alert);
    var marks := Marks(Run(Fresh(alerts), es).log, alert, alerts[alert].system);
    LastDownIsOwn(marks, Delay(alerts[alert]), |marks|);
    assert marks[..|marks|] == marks;
    if LastNoteOvertaken(marks) { OvertakenIsDown(marks); }
  }

  // ----- the configured minutes

  /** The delay is neither shorter nor longer than configured. */
  predicate AsConfigured(delay: int, minutes: int) {
    delay >= 60_000 && delay >= minutes * 60_000 && (delay == 60_000 || delay == minutes * 60_000)
  }

  /** Every "down" that is not overtaken comes more than the configured minutes, and more than one minute, after
      its own down report. */
  lemma DownIsDelayed(alerts: map<string, Alert>, es: seq<Event>, clock: int, alert: string, i: nat)
    requires alert in alerts && OrderlyRun(Fresh(alerts), es, clock)
    requires var marks := Marks(Run(Fresh(alerts), es).log, alert, alerts[alert].system);
             i < |marks| && marks[i].ToldDown? && !OvertakenAt(marks, i)
    ensures var marks := Marks(Run(Fresh(alerts), es).log, alert, alerts[alert].system);
            var since := RunningSince(marks[..i]);
            since.Some? && marks[i].at - since.value > 60_000 && marks[i].at - since.value > alerts[alert].minutes * 60_000
  {
    NotificationsAreFaithful(alerts, es, clock, alert);
    assert FaithfulAt(Marks(Run(Fresh(alerts), es).log, alert, alerts[alert].system), i, Delay(alerts[alert]));
  }

  /** The queue holds delays as configured. */
  ghost predicate QueuedAsConfigured(s: State, alerts: map<string, Alert>) {
    && s.alerts.Keys == alerts.Keys
    && (forall id :: id in alerts ==> s.alerts[id].minutes == alerts[id].minutes)
    && forall t :: t in s.queue && t.Schedule? ==> t.alert in alerts && AsConfigured(t.delay, alerts[t.alert].minutes)
  }

  /** Every pending alert was taken off the queue its configured delay before the time it is due. */
  ghost predicate DueAsConfigured(s: State, alerts: map<string, Alert>, times: set<int>) {
    forall id :: id in s.pending ==>
      id in alerts && exists at :: at in times && AsConfigured(s.pending[id] - at, alerts[id].minutes)
  }

  lemma {:induction false} HandleUpQueues(s: State, records: seq<string>, at: int)
    ensures var t := HandleUp(s, records, at);
            && t.pending == s.pending && SameAlerts(s, t)
            && forall task :: task in t.queue && task.Schedule? ==> task in s.queue
  {
    if records != [] { HandleUpQueues(s, records[..|records| - 1], at); }
  }

  lemma StepKeepsQueued(s: State, e: Event, alerts: map<string, Alert>)
    requires QueuedAsConfigured(s, alerts)
    ensures QueuedAsConfigured(Step(s, e), alerts)
  {
    match e
    case ReportDown(_, records, _) => SchedulesMeaning(s, records);
    case ReportUp(system, records, at) => HandleUpQueues(s.(log := s.log + [Up(system, at)]), records, at);
    case Work(_) => assert forall t :: s.queue != [] && t in s.queue[1..] ==> t in s.queue;
    case TickAt(order, at) => TickKeeps(s, order, at);
    case Repair(_, _) =>
  }

  lemma StepKeepsDue(s: State, e: Event, alerts: map<string, Alert>, times: set<int>)
    requires QueuedAsConfigured(s, alerts) && DueAsConfigured(s, alerts, times)
    ensures DueAsConfigured(Step(s, e), alerts, times + {e.at})
  {
    match e
    case ReportDown(_, _, _) =>
    case ReportUp(system, records, at) => HandleUpQueues(s.(log := s.log + [Up(system, at)]), records, at);
    case Work(at) =>
      if s.queue != [] && s.queue[0].Schedule? {
        assert s.queue[0] in s.queue;
      }
    case TickAt(order, at) => TickMeaning(s, order, at);
    case Repair(_, _) =>
  }

  function Times(es: seq<Event>): set<int> {
    set e | e in es :: e.at
  }

  /** Over every run, orderly or not: what is queued has the configured delay, and what is pending is due that long
      after the worker took it up. */
  lemma {:induction false} RunIsAsConfigured(s: State, es: seq<Event>, alerts: map<string, Alert>, times: set<int>)
    requires QueuedAsConfigured(s, alerts) && DueAsConfigured(s, alerts, times)
    ensures QueuedAsConfigured(Run(s, es), alerts) && DueAsConfigured(Run(s, es), alerts, times + Times(es))
    decreases |es|
  {
    if es == [] {
      assert times + Times(es) == times;
    } else {
      StepKeepsQueued(s, es[0], alerts);
      StepKeepsDue(s, es[0], alerts, times);
      RunIsAsConfigured(Step(s, es[0]), es[1..], alerts, times + {es[0].at});
      assert times + {es[0].at} + Times(es[1..]) == times + Times(es);
    }
  }

  // ----- what goes wrong otherwise

  const ONE_ALERT: map<string, Alert> := map["a" := Alert("s", 1, false)]

  /** A tick between an up report and the worker's taking its cancellation: "down" is the last word,
      and the alert stays triggered although the system is up. */
  lemma TickOvertakesCancel()
    ensures var end := Run(Fresh(ONE_ALERT), [ReportDown("s", ["a"], 0), Work(0), ReportUp("s", ["a"], 60_001),
                                              TickAt(["a"], 60_001), Work(60_001)]);
            && end.log == [Down("s", 0), Up("s", 60_001), SentDown("a", 60_001)]
            && end.alerts == map["a" := Alert("s", 1, true)] && end.pending == map[] && end.queue == []
  {
    var a := Step(Fresh(ONE_ALERT), ReportDown("s", ["a"], 0));
    assert a == State(ONE_ALERT, map[], [Schedule("a", 60_000)], [Down("s", 0)]);
    var b := Step(a, Work(0));
    assert b == State(ONE_ALERT, map["a" := 60_000], [], [Down("s", 0)]);
    HandleOneUp(b.(log := b.log + [Up("s", 60_001)]), "a", 60_001);
    var c := Step(b, ReportUp("s", ["a"], 60_001));
    assert c == State(ONE_ALERT, map["a" := 60_000], [Cancel("a")], [Down("s", 0), Up("s", 60_001)]);
    var d := Step(c, TickAt(["a"], 60_001));
    assert d == State(map["a" := Alert("s", 1, true)], map[], [Cancel("a")],
                      [Down("s", 0), Up("s", 60_001), SentDown("a", 60_001)]);
    FiveSteps(Fresh(ONE_ALERT), ReportDown("s", ["a"], 0), Work(0), ReportUp("s", ["a"], 60_001),
              TickAt(["a"], 60_001), Work(60_001));
  }

  lemma HandleOneUp(s: State, alert: string, at: int)
    ensures HandleUp(s, [alert], at) == if alert in s.pending then s.(queue := s.queue + [Cancel(alert)]) else SendUp(s, alert, at)
  {
    assert [alert][..0] == [];
    assert HandleUp(s, [], at) == s;
  }

  lemma RunFirst(s: State, e: Event, rest: seq<Event>)
    ensures Run(s, [e] + rest) == Run(Step(s, e), rest)
  {
    hide Step;
    assert ([e] + rest)[1..] == rest;
  }

  lemma FiveSteps(s: State, a: Event, b: Event, c: Event, d: Event, e: Event)
    ensures Run(s, [a, b, c, d, e]) == Step(Step(Step(Step(Step(s, a), b), c), d), e)
  {
    assert Run(Step(Step(Step(Step(Step(s, a), b), c), d), e), []) == Step(Step(Step(Step(Step(s, a), b), c), d), e);
    hide Step, Run;
    var s1 := Step(s, a);
    var s2 := Step(s1, b);
    var s3 := Step(s2, c);
    var s4 := Step(s3, d);
    RunFirst(s, a, [b, c, d, e]);
    assert [a, b, c, d, e] == [a] + [b, c, d, e];
    RunFirst(s1, b, [c, d, e]);
    assert [b, c, d, e] == [b] + [c, d, e];
    RunFirst(s2, c, [d, e]);
    assert [c, d, e] == [c] + [d, e];
    RunFirst(s3, d, [e]);
    assert [d, e] == [d] + [e];
    RunFirst(s4, e, []);
    assert [e] == [e] + [];
  }

  /** An up report while the schedule is still queued: "up" is sent for an outage never announced, and
      "down" follows once the system has been up for the whole delay. */
  lemma UpOvertakesSchedule()
    ensures var end := Run(Fresh(ONE_ALERT), [ReportDown("s", ["a"], 0), ReportUp("s", ["a"], 1), Work(2),
                                              TickAt(["a"], 60_003), Repair({}, 60_003)]);
            end.log == [Down("s", 0), Up("s", 1), SentUp("a", 1), SentDown("a", 60_003)]
            && end.alerts == map["a" := Alert("s", 1, true)]
  {
    var a := Step(Fresh(ONE_ALERT), ReportDown("s", ["a"], 0));
    assert a == State(ONE_ALERT, map[], [Schedule("a", 60_000)], [Down("s", 0)]);
    HandleOneUp(a.(log := a.log + [Up("s", 1)]), "a", 1);
    var b := Step(a, ReportUp("s", ["a"], 1));
    assert b == State(ONE_ALERT, map[], [Schedule("a", 60_000)], [Down("s", 0), Up("s", 1), SentUp("a", 1)]);
    var c := Step(b, Work(2));
    assert c == State(ONE_ALERT, map["a" := 60_002], [], [Down("s", 0), Up("s", 1), SentUp("a", 1)]);
    FiveSteps(Fresh(ONE_ALERT), ReportDown("s", ["a"], 0), ReportUp("s", ["a"], 1), Work(2),
              TickAt(["a"], 60_003), Repair({}, 60_003));
  }
}
