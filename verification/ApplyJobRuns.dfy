/** Runs of the package-apply job: any interleaving of requests, script activity, watcher ticks,
    agent crashes and restarts, over the steps defined in PackageApply.

    Scripts run detached, so they live in the host and not in the agent. */
module ApplyJobRuns {
  import opened Options
  import opened GoStrings
  import opened PackageApply

  /** `scripts` maps each install script still running to the time it was launched. */
  datatype Host = Host(now: nat, launches: nat, scripts: map<nat, nat>)

  datatype Agent = Down | Up(process: Process)

  datatype State = State(disk: Disk, host: Host, agent: Agent)

  datatype Event =
    | Advance(ns: nat)
    | Apply(req: Request, root: bool, launched: bool)
    | Output(script: nat, text: string)
    | Exit(script: nat, text: string)
    | Kill(script: nat)
    | Tick(watcher: nat, found: Option<seq<PackageUpdate>>)
    | Check(found: Option<seq<PackageUpdate>>)
    | Hold(held: set<string>)
    | Crash
    | Restart

  /** One step. An event that cannot happen in `s` leaves it unchanged. */
  function Step(kind: Manager, s: State, e: Event): State {
    match e
    case Advance(ns) => s.(host := s.host.(now := s.host.now + ns))
    case Apply(req, root, launched) =>
      if s.agent.Down? then s
      else
        var (d, p, reply) := Begin(kind, root, s.disk, s.agent.process, req, s.host.now, s.host.launches, launched);
        var host := if reply.Started?
                    then s.host.(launches := s.host.launches + 1, scripts := s.host.scripts[s.host.launches := s.host.now])
                    else s.host;
        State(d, host, Up(p))
    case Output(script, text) =>
      if script !in s.host.scripts then s
      else s.(disk := s.disk.(log := Some((if s.disk.log.Some? then s.disk.log.value else "") + text)))
    case Exit(script, text) =>
      if script !in s.host.scripts then s
      else s.(disk := s.disk.(exit := Some(ExitFile(text, script))), host := s.host.(scripts := s.host.scripts - {script}))
    case Kill(script) => s.(host := s.host.(scripts := s.host.scripts - {script}))
    case Tick(watcher, found) =>
      if s.agent.Down? || watcher >= |s.agent.process.watchers| then s
      else
        var (d, p) := Poll(s.disk, s.agent.process, watcher, s.host.now, found);
        s.(disk := d, agent := Up(p))
    case Check(found) =>
      if s.agent.Down? then s
      else s.(disk := RefreshDisk(s.disk, found), agent := Up(RefreshProcess(s.agent.process, found)))
    case Hold(held) =>
      if s.agent.Down? then s
      else
        var updates := WithHeld(s.agent.process.updates, held);
        s.(disk := s.disk.(updates := Some(updates)), agent := Up(s.agent.process.(updates := updates)))
    case Crash => s.(agent := Down)
    case Restart =>
      if s.agent.Up? then s
      else
        var (d, p) := Boot(s.disk);
        s.(disk := d, agent := Up(p))
  }

  function Run(kind: Manager, s: State, es: seq<Event>): State
    decreases |es|
  {
    if es == [] then s else Run(kind, Step(kind, s, es[0]), es[1..])
  }

  /** The first start of an agent in an empty data directory. */
  function Fresh(now: nat): State {
    State(Disk(Absent, None, None, None), Host(now, 0, map[]), Up(Process(IDLE_STATUS, [], [])))
  }

  // ----- invariants of every run

  /** While the agent is up, "running", "a job file is there" and "a watcher is alive" are one and
      the same, there is at most one watcher, and status, job file and watcher name one job. */
  ghost predicate InStep(s: State) {
    && !s.disk.job.Corrupt?
    && (s.agent.Up? ==>
          var p := s.agent.process;
          && |p.watchers| <= 1
          && (p.status.kind == Running <==> s.disk.job.Saved?)
          && (s.disk.job.Saved? <==> p.watchers != [])
          && (s.disk.job.Saved? ==> p.watchers == [s.disk.job.job] && p.status == RunningStatus(s.disk.job.job)))
  }

  /** Bookkeeping: launches are numbered in order, and nothing is dated in the future. */
  ghost predicate Numbered(s: State) {
    && (forall id :: id in s.host.scripts ==> id < s.host.launches && s.host.scripts[id] <= s.host.now)
    && (s.disk.job.Saved? ==> s.disk.job.job.launch < s.host.launches && s.disk.job.job.startedAt <= s.host.now)
    && (s.disk.exit.Some? ==> s.disk.exit.value.writer < s.host.launches)
  }

  /** A restarted agent boots with the list of updates the last one had. */
  ghost predicate CacheKept(s: State) {
    s.agent.Up? ==> s.agent.process.updates == if s.disk.updates.Some? then s.disk.updates.value else []
  }

  lemma StartKeepsInStep(kind: Manager, s: State, e: Event)
    requires InStep(s) && Numbered(s) && CacheKept(s) && e.Apply?
    ensures InStep(Step(kind, s, e)) && Numbered(Step(kind, s, e)) && CacheKept(Step(kind, s, e))
  {
    hide Applicable, FirstInvalid, FirstHeld, CommandFor, Unix;
  }

  lemma TickKeepsInStep(kind: Manager, s: State, e: Event)
    requires InStep(s) && Numbered(s) && CacheKept(s) && e.Tick?
    ensures InStep(Step(kind, s, e)) && Numbered(Step(kind, s, e)) && CacheKept(Step(kind, s, e))
  {
    hide ExitCode, LogTail, Unix;
  }

  lemma StepKeepsInStep(kind: Manager, s: State, e: Event)
    requires InStep(s) && Numbered(s) && CacheKept(s)
    ensures InStep(Step(kind, s, e)) && Numbered(Step(kind, s, e)) && CacheKept(Step(kind, s, e))
  {
    if e.Apply? {
      StartKeepsInStep(kind, s, e);
    } else if e.Tick? {
      TickKeepsInStep(kind, s, e);
    }
  }

  lemma {:induction false} RunKeepsInStep(kind: Manager, s: State, es: seq<Event>)
    requires InStep(s) && Numbered(s) && CacheKept(s)
    ensures InStep(Run(kind, s, es)) && Numbered(Run(kind, s, es)) && CacheKept(Run(kind, s, es))
    decreases |es|
  {
    if es != [] {
      StepKeepsInStep(kind, s, es[0]);
      RunKeepsInStep(kind, Step(kind, s, es[0]), es[1..]);
    }
  }

  // ----- whose exit code is it

  /** The script that exits does so within its own job's time limit. systemd enforces this through
      RuntimeMaxSec; without systemd it is an assumption about the install command. */
  predicate PunctualStep(s: State, e: Event) {
    e.Exit? && e.script in s.host.scripts ==> s.host.now <= s.host.scripts[e.script] + APPLY_JOB_TIMEOUT
  }

  predicate Punctual(kind: Manager, s: State, es: seq<Event>)
    decreases |es|
  {
    es == [] || (PunctualStep(s, es[0]) && Punctual(kind, Step(kind, s, es[0]), es[1..]))
  }

  predicate Overdue(host: Host, script: nat) {
    script in host.scripts && host.now > host.scripts[script] + APPLY_JOB_TIMEOUT
  }

  /** Scripts in time belong to the job in flight, and so does the exit file. */
  ghost predicate OwnExit(s: State) {
    && (forall id :: id in s.host.scripts && !Overdue(s.host, id) ==>
          s.disk.job.Saved? && s.disk.job.job.launch == id && s.disk.job.job.startedAt == s.host.scripts[id])
    && (s.disk.job.Saved? && s.disk.exit.Some? ==> s.disk.exit.value.writer == s.disk.job.job.launch)
    && (s.disk.job.Saved? ==> forall id :: id in s.host.scripts && id == s.disk.job.job.launch ==>
          s.host.scripts[id] == s.disk.job.job.startedAt)
    && (s.disk.job.Saved? && s.disk.exit.Some? ==> s.disk.job.job.launch !in s.host.scripts)
  }

  ghost predicate Inv(s: State) {
    InStep(s) && Numbered(s) && CacheKept(s) && OwnExit(s)
  }

  lemma TickKeepsOwnExit(kind: Manager, s: State, e: Event)
    requires Inv(s) && e.Tick?
    ensures OwnExit(Step(kind, s, e))
  {
    StepKeepsInStep(kind, s, e);
    if s.agent.Up? && e.watcher < |s.agent.process.watchers| {
      var job := s.agent.process.watchers[e.watcher];
      assert job == s.disk.job.job;
      var t := Step(kind, s, e);
      assert t.host == s.host && t.disk.exit == s.disk.exit;
    }
  }

  lemma StepKeepsOwnExit(kind: Manager, s: State, e: Event)
    requires Inv(s) && PunctualStep(s, e)
    ensures Inv(Step(kind, s, e))
  {
    StepKeepsInStep(kind, s, e);
    if e.Tick? {
      TickKeepsOwnExit(kind, s, e);
    }
  }

  lemma {:induction false} RunKeepsInv(kind: Manager, s: State, es: seq<Event>)
    requires Inv(s) && Punctual(kind, s, es)
    ensures Inv(Run(kind, s, es))
    decreases |es|
  {
    if es != [] {
      StepKeepsOwnExit(kind, s, es[0]);
      RunKeepsInv(kind, Step(kind, s, es[0]), es[1..]);
    }
  }

  lemma FreshIsValid(now: nat)
    ensures Inv(Fresh(now))
  {
  }

  /** In every run from a first start with punctual scripts, an agent that turns to "done" does so
      on a tick, for the job in flight, because that job's own script wrote exit code 0. */
  lemma DoneIsEarned(kind: Manager, now: nat, es: seq<Event>, e: Event)
    requires Punctual(kind, Fresh(now), es)
    ensures var s := Run(kind, Fresh(now), es);
            var t := Step(kind, s, e);
            t.agent.Up? && t.agent.process.status.kind == Done && !(s.agent.Up? && s.agent.process.status.kind == Done) ==>
              && s.agent.Up? && e.Tick?
              && s.disk.job.Saved? && s.agent.process.watchers == [s.disk.job.job]
              && s.disk.exit.Some?
              && s.disk.exit.value.writer == s.disk.job.job.launch
              && ExitCode(s.disk.exit.value.text) == 0
              && t.agent.process.status.packages == s.disk.job.job.packages
              && t.agent.process.status.startedAt == Unix(s.disk.job.job.startedAt)
  {
    FreshIsValid(now);
    RunKeepsInv(kind, Fresh(now), es);
  }

  /** A code that a shell can exit with is the code the watcher finalizes with. */
  lemma ShellCodeIsRead(code: nat)
    requires code < 256
    ensures ExitCode(Itoa(code) + "\n") == code
  {
    AtoiOfEcho(code);
  }

  // ----- a script that outlives its job

  predicate Starts(kind: Manager, s: State, e: Event) {
    e.Apply? && Step(kind, s, e).host.launches != s.host.launches
  }

  predicate NoStart(kind: Manager, s: State, es: seq<Event>)
    decreases |es|
  {
    es == [] || (!Starts(kind, s, es[0]) && NoStart(kind, Step(kind, s, es[0]), es[1..]))
  }

  /** The watcher would finalize the job in flight with another script's exit code. */
  predicate ForeignExit(s: State) {
    s.disk.job.Saved? && s.disk.exit.Some? && s.disk.exit.value.writer != s.disk.job.job.launch
  }

  ghost predicate OnlyOwnScript(s: State, launch: nat) {
    && s.host.scripts.Keys <= {launch}
    && (s.disk.exit.Some? ==> s.disk.exit.value.writer == launch)
    && (s.disk.job.Saved? ==> s.disk.job.job.launch == launch)
  }

  lemma OnlyOwnScriptNext(kind: Manager, s: State, e: Event, launch: nat)
    requires InStep(s) && Numbered(s) && CacheKept(s) && OnlyOwnScript(s, launch) && !Starts(kind, s, e)
    ensures OnlyOwnScript(Step(kind, s, e), launch)
  {
  }

  lemma {:induction false} OnlyOwnScriptStays(kind: Manager, s: State, es: seq<Event>, launch: nat)
    requires InStep(s) && Numbered(s) && CacheKept(s)
    requires OnlyOwnScript(s, launch) && NoStart(kind, s, es)
    ensures OnlyOwnScript(Run(kind, s, es), launch)
    decreases |es|
  {
    if es != [] {
      StepKeepsInStep(kind, s, es[0]);
      OnlyOwnScriptNext(kind, s, es[0], launch);
      hide Step, OnlyOwnScript, InStep, Numbered, CacheKept;
      OnlyOwnScriptStays(kind, Step(kind, s, es[0]), es[1..], launch);
    }
  }

  lemma OwnScriptOnly(kind: Manager, s: State, e: Event)
    requires InStep(s) && Numbered(s) && CacheKept(s) && Starts(kind, s, e) && s.host.scripts == map[]
    ensures OnlyOwnScript(Step(kind, s, e), s.host.launches)
  {
  }

  lemma NotForeign(s: State, launch: nat)
    requires OnlyOwnScript(s, launch)
    ensures !ForeignExit(s)
  {
  }

  /** Without another start, these events end with a foreign exit code beside the job in flight. */
  predicate Misattributes(kind: Manager, s: State, es: seq<Event>) {
    NoStart(kind, s, es) && ForeignExit(Run(kind, s, es))
  }

  /** A script that still runs at a start can write its code next to the new job's file. */
  lemma LateExitIsForeign(kind: Manager, s: State, e: Event, script: nat) returns (es: seq<Event>)
    requires InStep(s) && Numbered(s) && CacheKept(s) && Starts(kind, s, e) && script in s.host.scripts
    ensures Misattributes(kind, Step(kind, s, e), es)
  {
    var t := Step(kind, s, e);
    es := [Exit(script, "0\n")];
    assert script in t.host.scripts && t.disk.job.Saved? && t.disk.job.job.launch == s.host.launches;
    assert es[1..] == [];
    assert Run(kind, t, es) == Run(kind, Step(kind, t, es[0]), []) == Step(kind, t, es[0]);
    assert NoStart(kind, Step(kind, t, es[0]), []);
  }

  lemma NoneIsForeign(kind: Manager, s: State, e: Event, es: seq<Event>)
    requires InStep(s) && Numbered(s) && CacheKept(s) && Starts(kind, s, e) && s.host.scripts == map[]
    ensures !Misattributes(kind, Step(kind, s, e), es)
  {
    hide Step;
    if Misattributes(kind, Step(kind, s, e), es) {
      StepKeepsInStep(kind, s, e);
      OwnScriptOnly(kind, s, e);
      OnlyOwnScriptStays(kind, Step(kind, s, e), es, s.host.launches);
      NotForeign(Run(kind, Step(kind, s, e), es), s.host.launches);
    }
  }

  /** Starting a job can lead to another script's exit code being taken for its own exactly when
      some script is still running at the start. */
  lemma MisattributedExactlyWhen(kind: Manager, s: State, e: Event)
    requires InStep(s) && Numbered(s) && CacheKept(s) && Starts(kind, s, e)
    ensures (exists es :: Misattributes(kind, Step(kind, s, e), es)) <==> s.host.scripts != map[]
  {
    hide Misattributes;
    if s.host.scripts != map[] {
      var script :| script in s.host.scripts;
      var es := LateExitIsForeign(kind, s, e, script);
    } else {
      forall es ensures !Misattributes(kind, Step(kind, s, e), es) {
        NoneIsForeign(kind, s, e, es);
      }
    }
  }

  // ----- crashes do not change the outcome

  function WithoutCrashes(es: seq<Event>): seq<Event> {
    if es == [] then []
    else (if es[0].Crash? || es[0].Restart? then [] else [es[0]]) + WithoutCrashes(es[1..])
  }

  /** What the watcher will make, or has made, of `job` given the exit file. */
  function Verdict(d: Disk): Kind {
    if d.exit.Some? && ExitCode(d.exit.value.text) == 0 then Done else Failed
  }

  predicate Concluded(p: Process, job: Job, d: Disk) {
    p.status.kind == Verdict(d) && p.status.packages == job.packages && p.status.startedAt == Unix(job.startedAt)
  }

  /** Nothing can still change the exit file: it is written, or the time for writing it is over. */
  predicate Decided(s: State, job: Job) {
    s.disk.exit.Some? || TimedOut(job, s.host.now)
  }

  /** `a` ran with crashes, `b` saw the same events without them. Both hold the same exit file and
      host; `b` is never behind `a`. */
  ghost predicate Abreast(a: State, b: State, job: Job) {
    && a.host == b.host && a.disk.exit == b.disk.exit
    && b.agent.Up?
    && (b.disk.job == Saved(job) ==> a.disk.job == Saved(job))
    && (a.disk.job == Saved(job) || a.disk.job == Absent)
    && (b.disk.job == Saved(job) || (b.disk.job == Absent && Decided(b, job) && Concluded(b.agent.process, job, b.disk)))
    && (a.agent.Up? && a.disk.job == Absent ==>
          a.agent.process.status.kind == Idle || Concluded(a.agent.process, job, a.disk))
    && (job.launch in b.host.scripts ==> b.host.scripts[job.launch] == job.startedAt && b.disk.exit == None)
    && (forall id :: id in b.host.scripts && id != job.launch ==> Overdue(b.host, id))
  }

  lemma CrashStep(kind: Manager, a: State, b: State, job: Job, e: Event)
    requires Inv(a) && Inv(b) && Abreast(a, b, job) && (e.Crash? || e.Restart?)
    ensures Abreast(Step(kind, a, e), b, job)
  {
  }

  lemma SharedStep(kind: Manager, a: State, b: State, job: Job, e: Event)
    requires Inv(a) && Inv(b) && Abreast(a, b, job) && !e.Crash? && !e.Restart? && !e.Apply?
    requires PunctualStep(a, e)
    ensures Abreast(Step(kind, a, e), Step(kind, b, e), job)
  {
    if e.Tick? { SharedTick(kind, a, b, job, e); }
  }

  lemma SharedTick(kind: Manager, a: State, b: State, job: Job, e: Event)
    requires Inv(a) && Inv(b) && Abreast(a, b, job) && e.Tick?
    ensures Abreast(Step(kind, a, e), Step(kind, b, e), job)
  {
    hide LogTail, Unix;
  }

  predicate NoApply(es: seq<Event>) {
    forall i :: 0 <= i < |es| ==> !es[i].Apply?
  }

  lemma {:induction false} StayAbreast(kind: Manager, a: State, b: State, job: Job, es: seq<Event>)
    requires Inv(a) && Inv(b) && Abreast(a, b, job) && NoApply(es) && Punctual(kind, a, es)
    ensures var a', b' := Run(kind, a, es), Run(kind, b, WithoutCrashes(es));
            Inv(a') && Inv(b') && Abreast(a', b', job)
    decreases |es|
  {
    if es != [] {
      var e, rest := es[0], es[1..];
      assert NoApply(rest);
      StepKeepsOwnExit(kind, a, e);
      if e.Crash? || e.Restart? {
        CrashStep(kind, a, b, job, e);
        StayAbreast(kind, Step(kind, a, e), b, job, rest);
        assert WithoutCrashes(es) == WithoutCrashes(rest);
      } else {
        SharedStep(kind, a, b, job, e);
        StepKeepsOwnExit(kind, b, e);
        StayAbreast(kind, Step(kind, a, e), Step(kind, b, e), job, rest);
        assert WithoutCrashes(es) == [e] + WithoutCrashes(rest);
        assert WithoutCrashes(es)[1..] == WithoutCrashes(rest);
      }
    }
  }

  /** Crash transparency. Start a job in any reachable state, then let any events but further
      requests happen, crashes and restarts among them. Whatever outcome the agent ends up
      reporting, the run without the crashes reports too, for the same packages and start time.
      While it reports none, the job is still running, or a crash hit after the outcome was in. */
  lemma CrashTransparency(kind: Manager, s: State, start: Event, es: seq<Event>)
    requires Inv(s) && Starts(kind, s, start)
    requires NoApply(es) && Punctual(kind, Step(kind, s, start), es)
    ensures var t := Step(kind, s, start);
            var job := t.disk.job.job;
            var a, b := Run(kind, t, es), Run(kind, t, WithoutCrashes(es));
            && b.agent.Up?
            && (a.agent.Up? ==>
                  var p, q := a.agent.process.status, b.agent.process.status;
                  && (p.kind == Done || p.kind == Failed ==>
                        q.kind == p.kind && q.packages == p.packages && q.startedAt == p.startedAt
                        && p.packages == job.packages && p.startedAt == Unix(job.startedAt))
                  && (p.kind == Running ==> a.disk.job == Saved(job))
                  && (p.kind == Idle ==> q.kind == Verdict(b.disk)))
  {
    var t := Step(kind, s, start);
    StepKeepsOwnExit(kind, s, start);
    StayAbreast(kind, t, t, t.disk.job.job, es);
  }

  /** A watched job is settled by any tick once the exit file is there or the time is up. */
  lemma TickSettles(kind: Manager, s: State, found: Option<seq<PackageUpdate>>)
    requires Inv(s) && s.agent.Up? && s.disk.job.Saved? && Decided(s, s.disk.job.job)
    ensures var t := Step(kind, s, Tick(0, found));
            t.disk.job == Absent && t.agent.Up? && t.agent.process.watchers == []
            && Concluded(t.agent.process, s.disk.job.job, s.disk)
  {
  }

  lemma RunTwo(kind: Manager, s: State, e: Event, f: Event, rest: seq<Event>)
    ensures Run(kind, s, [e, f] + rest) == Run(kind, Step(kind, Step(kind, s, e), f), rest)
  {
    assert ([e, f] + rest)[1..] == [f] + rest;
    assert ([f] + rest)[1..] == rest;
  }

  /** A job just started, its script running, nothing else of its launch on disk. */
  ghost predicate JustStarted(s: State, job: Job) {
    && s.agent.Up? && s.disk.job == Saved(job) && s.disk.exit == None
    && s.agent.process.watchers == [job] && job.launch in s.host.scripts && job.startedAt == s.host.now
  }

  lemma LateUnwatched(kind: Manager, s: State, job: Job, exit: Event)
    requires JustStarted(s, job) && exit.Exit? && exit.script == job.launch && ExitCode(exit.text) == 0
    ensures var a := Run(kind, s, [Crash, Advance(APPLY_JOB_TIMEOUT + 1)] + ([Tick(0, None), exit] + ([Restart, Tick(0, None)] + [])));
            a.agent.Up? && a.agent.process.status.kind == Done
  {
    RunTwo(kind, s, Crash, Advance(APPLY_JOB_TIMEOUT + 1), [Tick(0, None), exit] + ([Restart, Tick(0, None)] + []));
    var s2 := Step(kind, Step(kind, s, Crash), Advance(APPLY_JOB_TIMEOUT + 1));
    RunTwo(kind, s2, Tick(0, None), exit, [Restart, Tick(0, None)] + []);
    var s4 := Step(kind, Step(kind, s2, Tick(0, None)), exit);
    assert s4.agent.Down? && s4.disk.job == Saved(job) && s4.disk.exit.Some? && s4.disk.exit.value.text == exit.text;
    RunTwo(kind, s4, Restart, Tick(0, None), []);
  }

  lemma LateWatched(kind: Manager, s: State, job: Job, exit: Event)
    requires JustStarted(s, job) && exit.Exit?
    ensures var b := Run(kind, s, [Advance(APPLY_JOB_TIMEOUT + 1), Tick(0, None)] + ([exit, Tick(0, None)] + []));
            b.agent.Up? && b.agent.process.status.kind == Failed
  {
    RunTwo(kind, s, Advance(APPLY_JOB_TIMEOUT + 1), Tick(0, None), [exit, Tick(0, None)] + []);
    var s2 := Step(kind, Step(kind, s, Advance(APPLY_JOB_TIMEOUT + 1)), Tick(0, None));
    assert s2.agent.Up? && s2.agent.process.status.kind == Failed && s2.agent.process.watchers == [];
    RunTwo(kind, s2, exit, Tick(0, None), []);
  }

  function LateRun(exit: Event): seq<Event> {
    [Crash, Advance(APPLY_JOB_TIMEOUT + 1)] + ([Tick(0, None), exit] + ([Restart, Tick(0, None)] + []))
  }

  lemma WithoutCrashesNext(e: Event, rest: seq<Event>)
    ensures WithoutCrashes([e] + rest) == (if e.Crash? || e.Restart? then [] else [e]) + WithoutCrashes(rest)
  {
    assert ([e] + rest)[1..] == rest;
  }

  lemma LateRunWithoutCrashes(exit: Event)
    requires exit.Exit?
    ensures WithoutCrashes(LateRun(exit)) == [Advance(APPLY_JOB_TIMEOUT + 1), Tick(0, None)] + ([exit, Tick(0, None)] + [])
  {
    hide WithoutCrashes;
    var tick, advance := Tick(0, None), Advance(APPLY_JOB_TIMEOUT + 1);
    assert WithoutCrashes([]) == [] by { NothingWithoutCrashes(); }
    WithoutCrashesNext(tick, []);
    WithoutCrashesNext(Restart, [tick]);
    WithoutCrashesNext(exit, [Restart, tick]);
    WithoutCrashesNext(tick, [exit, Restart, tick]);
    WithoutCrashesNext(advance, [tick, exit, Restart, tick]);
    WithoutCrashesNext(Crash, [advance, tick, exit, Restart, tick]);
    assert [tick] + [] == [tick] && [Restart] + [tick] == [Restart, tick] && [exit] + [Restart, tick] == [exit, Restart, tick];
    assert [tick] + [exit, Restart, tick] == [tick, exit, Restart, tick];
    assert [advance] + [tick, exit, Restart, tick] == [advance, tick, exit, Restart, tick];
    assert LateRun(exit) == [Crash] + [advance, tick, exit, Restart, tick];
  }

  lemma NothingWithoutCrashes()
    ensures WithoutCrashes([]) == []
  {
  }

  lemma StartedJob(kind: Manager, s: State, start: Event)
    requires Inv(s) && Starts(kind, s, start)
    ensures Step(kind, s, start).disk.job.Saved?
    ensures JustStarted(Step(kind, s, start), Step(kind, s, start).disk.job.job)
  {
    StepKeepsOwnExit(kind, s, start);
  }

  /** Punctuality is needed: a script that finishes late is reported as failed when the agent kept
      watching, and as done when the agent happened to be down at the deadline. */
  lemma LateScriptDivides(kind: Manager, s: State, start: Event)
    requires Inv(s) && Starts(kind, s, start)
    ensures Step(kind, s, start).disk.job.Saved?
    ensures var t := Step(kind, s, start);
            var es := LateRun(Exit(t.disk.job.job.launch, Itoa(0) + "\n"));
            var a, b := Run(kind, t, es), Run(kind, t, WithoutCrashes(es));
            && a.agent.Up? && a.agent.process.status.kind == Done
            && b.agent.Up? && b.agent.process.status.kind == Failed
  {
    StartedJob(kind, s, start);
    var t := Step(kind, s, start);
    var exit := Exit(t.disk.job.job.launch, Itoa(0) + "\n");
    ShellCodeIsRead(0);
    LateUnwatched(kind, t, t.disk.job.job, exit);
    LateWatched(kind, t, t.disk.job.job, exit);
    LateRunWithoutCrashes(exit);
  }
}
