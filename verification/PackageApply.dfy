/** The background package-apply job of agent/pkgupdate.go: what one agent process and the
    files it leaves behind look like, and what each step does to them.

    A detached install script outlives the agent. The agent leaves a job file, polls for the
    exit file the script writes, and a restarted agent resumes from the job file. */
module PackageApply {
  import opened Options
  import opened GoStrings

  /** Clock readings are nanoseconds; a status carries whole seconds. */
  const NS_PER_SECOND: nat := 1_000_000_000
  const APPLY_JOB_TIMEOUT: nat := 3600 * NS_PER_SECOND
  const MAX_TAIL: nat := 1000

  function Unix(t: nat): nat {
    t / NS_PER_SECOND
  }

  datatype Manager = Apt | Dnf | Apk | Pacman | NoManager

  datatype PackageUpdate = PackageUpdate(name: string, held: bool, security: bool)

  datatype Request = Request(packages: seq<string>, all: bool, securityOnly: bool)

  /** `launch` numbers the install script that belongs to the job. Only the proofs look at it. */
  datatype Job = Job(packages: seq<string>, startedAt: nat, launch: nat)

  datatype JobFile = Absent | Corrupt | Saved(job: Job)

  /** `writer` is the launch whose script wrote the file. Only the proofs look at it. */
  datatype ExitFile = ExitFile(text: string, writer: nat)

  datatype Disk = Disk(job: JobFile, exit: Option<ExitFile>, log: Option<string>, updates: Option<seq<PackageUpdate>>)

  datatype Kind = Idle | Running | Done | Failed

  datatype Status = Status(kind: Kind, packages: seq<string>, message: string, startedAt: nat, finishedAt: nat)

  /** A running agent process: its status, its cached updates and its live `watchJob` goroutines. */
  datatype Process = Process(status: Status, updates: seq<PackageUpdate>, watchers: seq<Job>)

  datatype Refusal = NothingApplicable | InvalidName(name: string) | AlreadyRunning(current: Status)
                   | Held(name: string) | Unsupported | LaunchFailed

  datatype Command = UpgradeAll | Install(packages: seq<string>)

  datatype Reply = Refused(why: Refusal) | Started(status: Status, command: Command)

  const IDLE_STATUS: Status := Status(Idle, [], "", 0, 0)

  function RunningStatus(job: Job): Status {
    Status(Running, job.packages, "", Unix(job.startedAt), 0)
  }

  /** Whole seconds of a clock reading. */
  predicate InSeconds(seconds: nat, at: nat) {
    seconds * 1_000_000_000 <= at < (seconds + 1) * 1_000_000_000
  }

  // ----- starting a job

  predicate IsAlnum(c: char) {
    'A' <= c <= 'Z' || 'a' <= c <= 'z' || '0' <= c <= '9'
  }

  predicate ValidPackageName(name: string) {
    && name != []
    && IsAlnum(name[0])
    && forall i :: 1 <= i < |name| ==> IsAlnum(name[i]) || name[i] in ".+:_-"
  }

  predicate Applies(u: PackageUpdate, securityOnly: bool) {
    !u.held && (securityOnly ==> u.security)
  }

  /** Names of the updates a request for "all" resolves to, in cache order. */
  function Applicable(updates: seq<PackageUpdate>, securityOnly: bool): seq<string> {
    if updates == [] then []
    else
      var u := updates[|updates| - 1];
      Applicable(updates[..|updates| - 1], securityOnly) + if Applies(u, securityOnly) then [u.name] else []
  }

  function Requested(updates: seq<PackageUpdate>, req: Request): seq<string> {
    if req.all then Applicable(updates, req.securityOnly) else req.packages
  }

  function FirstInvalid(names: seq<string>): Option<string> {
    if names == [] then None
    else if !ValidPackageName(names[0]) then Some(names[0])
    else FirstInvalid(names[1..])
  }

  function FirstHeld(updates: seq<PackageUpdate>, names: seq<string>): Option<string> {
    if updates == [] then None
    else if updates[0].held && updates[0].name in names then Some(updates[0].name)
    else FirstHeld(updates[1..], names)
  }

  /** The command to launch; none when there is no supported package manager to call. */
  function CommandFor(kind: Manager, root: bool, req: Request, names: seq<string>): Option<Command> {
    if root && kind == NoManager then None
    else if req.all && !req.securityOnly && root then Some(UpgradeAll)
    else Some(Install(names))
  }

  /** Why a request is turned away before anything is touched, if it is. */
  function Objection(kind: Manager, root: bool, p: Process, req: Request): Option<Refusal> {
    var names := Requested(p.updates, req);
    var invalid := FirstInvalid(names);
    var held := FirstHeld(p.updates, names);
    if req.all && names == [] then Some(NothingApplicable)
    else if invalid.Some? then Some(InvalidName(invalid.value))
    else if p.status.kind == Running then Some(AlreadyRunning(p.status))
    else if held.Some? then Some(Refusal.Held(held.value))
    else if CommandFor(kind, root, req, names) == None then Some(Unsupported)
    else None
  }

  /** `startApply`. The old exit and log files go before the launch is attempted. */
  function Begin(kind: Manager, root: bool, d: Disk, p: Process, req: Request, now: nat, launch: nat, launched: bool)
    : (Disk, Process, Reply)
  {
    var objection := Objection(kind, root, p, req);
    if objection.Some? then (d, p, Refused(objection.value))
    else
      var cleared := d.(exit := None, log := None);
      if !launched then (cleared, p, Refused(LaunchFailed))
      else
        var names := Requested(p.updates, req);
        var job := Job(names, now, launch);
        (cleared.(job := Saved(job)),
         p.(status := RunningStatus(job), watchers := p.watchers + [job]),
         Started(RunningStatus(job), CommandFor(kind, root, req, names).value))
  }

  // ----- finishing a job

  function ExitCode(text: string): int {
    match Atoi(TrimSpace(text))
    case Some(code) => code
    case None => -1
  }

  function LogTail(log: Option<string>): string {
    if log == None || log.value == "" then "apply failed (no log output)"
    else
      var tail := TrimSpace(log.value);
      if |tail| > MAX_TAIL then "\U{2026}" + tail[|tail| - MAX_TAIL..] else tail
  }

  predicate TimedOut(job: Job, now: nat) {
    now > job.startedAt + APPLY_JOB_TIMEOUT
  }

  function FinalStatus(job: Job, code: int, log: Option<string>, now: nat): Status {
    if code == 0 then Status(Done, job.packages, "", Unix(job.startedAt), Unix(now))
    else
      var message := if code == -1 && TimedOut(job, now) then "apply timed out or was interrupted" else LogTail(log);
      Status(Failed, job.packages, message, Unix(job.startedAt), Unix(now))
  }

  /** `refresh` replaces and persists the cache; a failed check (None) leaves both alone. */
  function RefreshDisk(d: Disk, found: Option<seq<PackageUpdate>>): Disk {
    if found.Some? then d.(updates := found) else d
  }

  function RefreshProcess(p: Process, found: Option<seq<PackageUpdate>>): Process {
    if found.Some? then p.(updates := found.value) else p
  }

  /** `refreshHeldFlags`. */
  function WithHeld(updates: seq<PackageUpdate>, held: set<string>): (r: seq<PackageUpdate>)
    ensures |r| == |updates|
    ensures forall i :: 0 <= i < |r| ==> r[i].name == updates[i].name && r[i].security == updates[i].security
                                         && (r[i].held <==> r[i].name in held)
  {
    seq(|updates|, i requires 0 <= i < |updates| => updates[i].(held := updates[i].name in held))
  }

  function Finalize(d: Disk, p: Process, i: nat, code: int, now: nat, found: Option<seq<PackageUpdate>>): (Disk, Process)
    requires i < |p.watchers|
  {
    var job := p.watchers[i];
    (RefreshDisk(d.(job := Absent), found),
     RefreshProcess(p.(status := FinalStatus(job, code, d.log, now), watchers := p.watchers[..i] + p.watchers[i + 1..]), found))
  }

  /** What one tick of `watchJob` decides: an exit code to finalize with, or keep waiting. */
  function Decide(job: Job, now: nat, exit: Option<string>): Option<int> {
    if exit.Some? then Some(ExitCode(exit.value))
    else if TimedOut(job, now) then Some(-1)
    else None
  }

  function ExitText(d: Disk): Option<string> {
    if d.exit.Some? then Some(d.exit.value.text) else None
  }

  /** One tick of the `i`-th live `watchJob`. */
  function Poll(d: Disk, p: Process, i: nat, now: nat, found: Option<seq<PackageUpdate>>): (Disk, Process)
    requires i < |p.watchers|
  {
    match Decide(p.watchers[i], now, ExitText(d))
    case Some(code) => Finalize(d, p, i, code, now, found)
    case None => (d, p)
  }

  /** `newPkgUpdateManager`: restore the cache and resume an in-flight job. */
  function Boot(d: Disk): (Disk, Process) {
    var p := Process(IDLE_STATUS, if d.updates.Some? then d.updates.value else [], []);
    match d.job
    case Absent => (d, p)
    case Corrupt => (d.(job := Absent), p)
    case Saved(job) => (d, p.(status := RunningStatus(job), watchers := [job]))
  }

  // ----- the same, as the agent does it

  /** The agent's data directory. It survives the agent process. */
  class JobDir {
    var job: JobFile
    var exit: Option<ExitFile>
    var log: Option<string>
    var updates: Option<seq<PackageUpdate>>

    function Contents(): Disk
      reads this
    {
      Disk(job, exit, log, updates)
    }

    constructor ()
      ensures Contents() == Disk(Absent, None, None, None)
    {
      job, exit, log, updates := Absent, None, None, None;
    }
  }

  class PkgUpdateManager {
    const kind: Manager
    const dir: JobDir
    var updates: seq<PackageUpdate>
    var jobStatus: Status
    var watchers: seq<Job>

    function View(): Process
      reads this
    {
      Process(jobStatus, updates, watchers)
    }

    /** `newPkgUpdateManager` with `loadUpdates` and `recoverJob`. */
    constructor (kind: Manager, dir: JobDir)
      modifies dir
      ensures this.kind == kind && this.dir == dir
      ensures (dir.Contents(), View()) == Boot(old(dir.Contents()))
      ensures dir.exit == old(dir.exit) && dir.log == old(dir.log) && dir.updates == old(dir.updates)
      ensures updates == if dir.updates.Some? then dir.updates.value else []
      ensures match old(dir.job)
              case Saved(job) =>
                dir.job == Saved(job) && watchers == [job] && jobStatus.kind == Running
                && jobStatus.packages == job.packages && InSeconds(jobStatus.startedAt, job.startedAt)
              case _ => dir.job == Absent && watchers == [] && jobStatus.kind == Idle
    {
      this.kind, this.dir := kind, dir;
      jobStatus := IDLE_STATUS;
      updates := if dir.updates.Some? then dir.updates.value else [];
      watchers := [];
      new;
      match dir.job {
        case Absent =>
        case Corrupt =>
          dir.job := Absent;
        case Saved(job) =>
          jobStatus := RunningStatus(job);
          watchers := [job];
      }
    }

    /** The loop that resolves "all" from the cached updates. */
    method ResolveAll(securityOnly: bool) returns (packages: seq<string>)
      ensures packages == Applicable(updates, securityOnly)
    {
      packages := [];
      for i := 0 to |updates|
        invariant packages == Applicable(updates[..i], securityOnly)
      {
        assert updates[..i + 1][..i] == updates[..i];
        if updates[i].held || (securityOnly && !updates[i].security) {
          continue;
        }
        packages := packages + [updates[i].name];
      }
      assert updates[..|updates|] == updates;
    }

    method StartApply(root: bool, req: Request, now: nat, launch: nat, launched: bool) returns (reply: Reply)
      modifies this, dir
      ensures (dir.Contents(), View(), reply)
           == Begin(kind, root, old(dir.Contents()), old(View()), req, now, launch, launched)
      ensures reply.Started? ==> Launches(kind, root, old(updates), req, reply)
      ensures reply.Started? ==>
                jobStatus == reply.status && dir.job == Saved(Job(reply.status.packages, now, launch))
                && watchers == old(watchers) + [Job(reply.status.packages, now, launch)]
      ensures !reply.Started? ==> View() == old(View()) && dir.job == old(dir.job)
    {
      hide Launches, ValidPackageName, Unix, CommandFor;
      CommandMeaning(kind, root, dir.Contents(), View(), req, now, launch, launched);
      var packages := req.packages;
      if req.all {
        packages := ResolveAll(req.securityOnly);
        if packages == [] {
          return Refused(NothingApplicable);
        }
      }
      for i := 0 to |packages|
        invariant FirstInvalid(packages) == FirstInvalid(packages[i..])
      {
        if !ValidPackageName(packages[i]) {
          return Refused(InvalidName(packages[i]));
        }
      }
      if jobStatus.kind == Running {
        return Refused(AlreadyRunning(jobStatus));
      }
      var requested := set name | name in packages;
      for i := 0 to |updates|
        invariant FirstHeld(updates, packages) == FirstHeld(updates[i..], packages)
      {
        if updates[i].held && updates[i].name in requested {
          return Refused(Refusal.Held(updates[i].name));
        }
      }
      var command := CommandFor(kind, root, req, packages);
      if command == None {
        return Refused(Unsupported);
      }
      dir.exit := None;
      dir.log := None;
      if !launched {
        return Refused(LaunchFailed);
      }
      var job := Job(packages, now, launch);
      jobStatus := RunningStatus(job);
      dir.job := Saved(job);
      watchers := watchers + [job];
      return Started(jobStatus, command.value);
    }

    method Refresh(found: Option<seq<PackageUpdate>>)
      modifies this`updates, dir`updates
      ensures dir.Contents() == RefreshDisk(old(dir.Contents()), found)
      ensures View() == RefreshProcess(old(View()), found)
      ensures match found
              case Some(list) => updates == list && dir.updates == Some(list)
              case None => updates == old(updates) && dir.updates == old(dir.updates)
    {
      if found.Some? {
        updates := found.value;
        dir.updates := found;
      }
    }

    method FinalizeJob(i: nat, exitCode: int, now: nat, found: Option<seq<PackageUpdate>>)
      requires i < |watchers|
      modifies this, dir
      ensures (dir.Contents(), View()) == Finalize(old(dir.Contents()), old(View()), i, exitCode, now, found)
      ensures Finishes(old(watchers[i]), exitCode, old(dir.log), now, jobStatus) && dir.job == Absent
      ensures watchers == old(watchers[..i]) + old(watchers[i + 1..])
    {
      FinalMeaning(watchers[i], exitCode, dir.log, now);
      var job := watchers[i];
      var status := Status(Failed, job.packages, "", Unix(job.startedAt), Unix(now));
      if exitCode == 0 {
        status := status.(kind := Done);
      } else if exitCode == -1 && now - job.startedAt > APPLY_JOB_TIMEOUT {
        status := status.(message := "apply timed out or was interrupted");
      } else {
        status := status.(message := LogTail(dir.log));
      }
      jobStatus := status;
      dir.job := Absent;
      watchers := watchers[..i] + watchers[i + 1..];
      Refresh(found);
    }

    /** One tick of a watcher. */
    method PollExit(i: nat, now: nat, found: Option<seq<PackageUpdate>>)
      requires i < |watchers|
      modifies this, dir
      ensures (dir.Contents(), View()) == Poll(old(dir.Contents()), old(View()), i, now, found)
      ensures var job := old(watchers[i]);
              match old(dir.exit)
              case Some(file) => Finishes(job, ExitCode(file.text), old(dir.log), now, jobStatus) && dir.job == Absent
              case None =>
                if now > job.startedAt + 3_600_000_000_000
                then Finishes(job, -1, old(dir.log), now, jobStatus) && dir.job == Absent
                else View() == old(View()) && dir.Contents() == old(dir.Contents())
    {
      hide Finishes, ExitCode, LogTail;
      if dir.exit.Some? {
        FinalizeJob(i, ExitCode(dir.exit.value.text), now, found);
      } else if now - watchers[i].startedAt > APPLY_JOB_TIMEOUT {
        FinalizeJob(i, -1, now, found);
      }
    }
  }

  /** What a ticking watcher reads: the clock and the exit file's text, if there is one. */
  datatype Reading = Reading(now: nat, exit: Option<string>)

  /** `watchJob` over the readings its ticker delivers: it stops at the first that decides, with
      the code decided there, and it cannot get past a reading beyond the timeout. */
  method WatchJob(job: Job, ticks: seq<Reading>) returns (stop: nat, code: int)
    ensures stop <= |ticks|
    ensures forall k :: 0 <= k < stop ==> ticks[k].exit == None && ticks[k].now <= job.startedAt + APPLY_JOB_TIMEOUT
    ensures stop < |ticks| ==> Decide(job, ticks[stop].now, ticks[stop].exit) == Some(code)
    ensures stop < |ticks| ==>
              match ticks[stop].exit
              case Some(text) => code == ExitCode(text)
              case None => code == -1 && ticks[stop].now > job.startedAt + 3_600_000_000_000
    ensures forall k :: 0 <= k < |ticks| && TimedOut(job, ticks[k].now) ==> stop <= k
  {
    stop, code := 0, -1;
    while stop < |ticks|
      invariant stop <= |ticks|
      invariant forall k :: 0 <= k < stop ==> ticks[k].exit == None && ticks[k].now <= job.startedAt + APPLY_JOB_TIMEOUT
    {
      var t := ticks[stop];
      if t.exit.Some? {
        code := ExitCode(t.exit.value);
        return;
      }
      if t.now - job.startedAt > APPLY_JOB_TIMEOUT {
        return stop, -1;
      }
      stop := stop + 1;
    }
  }

  // ----- what starting promises

  /** What a started job runs: a root agent asked for everything lets the package manager upgrade everything, and
      in any other case exactly the job's packages are installed. For "all" these are the updates that are not
      held, for security-only requests the security updates among them. */
  ghost predicate Launches(kind: Manager, root: bool, updates: seq<PackageUpdate>, req: Request, reply: Reply)
    requires reply.Started?
  {
    && (reply.command == UpgradeAll <==> req.all && !req.securityOnly && root)
    && (reply.command != UpgradeAll ==> reply.command == Install(reply.status.packages))
    && (root ==> kind != NoManager)
    && (!req.all ==> reply.status.packages == req.packages)
    && (req.all ==> reply.status.packages != []
                    && forall name :: name in reply.status.packages <==>
                         exists u :: u in updates && u.name == name && !u.held && (req.securityOnly ==> u.security))
  }

  lemma CommandMeaning(kind: Manager, root: bool, d: Disk, p: Process, req: Request, now: nat, launch: nat, launched: bool)
    ensures var (_, _, reply) := Begin(kind, root, d, p, req, now, launch, launched);
            reply.Started? ==> Launches(kind, root, p.updates, req, reply)
  {
    ApplicableMeaning(p.updates, req.securityOnly);
    forall u | u in p.updates && Applies(u, req.securityOnly) ensures u.name in Applicable(p.updates, req.securityOnly) {
      var i :| 0 <= i < |p.updates| && p.updates[i] == u;
    }
  }

  /** Characters that mean something to a shell, or separate its words. */
  const SHELL: string := " \t\n\r'\"`$&|;<>()[]{}*?!#~=%\\/,@^"

  /** Whatever is requested, every package named on a command line is a single plain word that is not an option. */
  lemma LaunchIsPlain(kind: Manager, root: bool, d: Disk, p: Process, req: Request, now: nat, launch: nat, launched: bool, name: string)
    ensures var (_, _, reply) := Begin(kind, root, d, p, req, now, launch, launched);
            reply.Started? && reply.command.Install? && name in reply.command.packages ==>
              name != "" && name[0] != '-' && forall i :: 0 <= i < |name| ==> name[i] !in SHELL
  {
    FirstInvalidMeaning(Requested(p.updates, req));
  }

  /** The order in which a request is refused, and what it is told. */
  lemma RefusalMeaning(kind: Manager, root: bool, d: Disk, p: Process, req: Request, now: nat, launch: nat, launched: bool)
    ensures var (_, _, reply) := Begin(kind, root, d, p, req, now, launch, launched);
            var names := Requested(p.updates, req);
            var allValid := forall i :: 0 <= i < |names| ==> ValidPackageName(names[i]);
            var noneHeld := forall u :: u in p.updates && u.held ==> u.name !in names;
            && (reply == Refused(NothingApplicable) <==>
                  req.all && forall u :: u in p.updates ==> u.held || (req.securityOnly && !u.security))
            && (reply.Refused? && reply.why.InvalidName? <==> !allValid)
            && (reply.Refused? && reply.why.AlreadyRunning? <==>
                  reply != Refused(NothingApplicable) && allValid && p.status.kind == Running)
            && (reply.Refused? && reply.why.AlreadyRunning? ==> reply.why.current == p.status)
            && (reply.Refused? && reply.why.Held? <==>
                  reply != Refused(NothingApplicable) && allValid && p.status.kind != Running && !noneHeld)
            && (reply == Refused(Unsupported) <==>
                  reply != Refused(NothingApplicable) && allValid && p.status.kind != Running && noneHeld && root && kind == NoManager)
  {
    var names := Requested(p.updates, req);
    FirstInvalidMeaning(names);
    FirstHeldMeaning(p.updates, names);
    ApplicableMeaning(p.updates, req.securityOnly);
    assert forall u :: u in p.updates && u.held && u.name in names ==> Blocks(u, names);
    if u :| req.all && u in p.updates && Applies(u, req.securityOnly) {
      var i :| 0 <= i < |p.updates| && p.updates[i] == u;
      assert u.name in names;
    }
    assert names != [] ==> names[0] in names;
  }

  // ----- what finishing promises

  /** The outcome of a job that ended with this exit code, and the message that goes with it. */
  ghost predicate Finishes(job: Job, code: int, log: Option<string>, now: nat, status: Status) {
    && status.kind == (if code == 0 then Done else Failed)
    && status.packages == job.packages
    && InSeconds(status.startedAt, job.startedAt) && InSeconds(status.finishedAt, now)
    && (code == 0 ==> status.message == "")
    && (code == -1 && now > job.startedAt + 3_600_000_000_000 ==> status.message == "apply timed out or was interrupted")
    && (code != 0 && !(code == -1 && now > job.startedAt + 3_600_000_000_000) ==>
          if log == None || log.value == "" then status.message == "apply failed (no log output)"
          else if |TrimSpace(log.value)| <= 1000 then status.message == TrimSpace(log.value)
          else status.message == ['\U{2026}'] + TrimSpace(log.value)[|TrimSpace(log.value)| - 1000..])
  }

  lemma FinalMeaning(job: Job, code: int, log: Option<string>, now: nat)
    ensures Finishes(job, code, log, now, FinalStatus(job, code, log, now))
  {
  }

  /** An exit file that is not a number counts as a failure. */
  lemma UnreadableExitFails(text: string)
    ensures (forall i :: 0 <= i < |text| ==> !IsDigit(text[i])) ==> ExitCode(text) == -1
  {
    var a, b := TrimMeaning(text);
    var trimmed := TrimSpace(text);
    DigitsOnly(trimmed);
    if trimmed != [] { DigitsOnly(trimmed[1..]); }
  }

  lemma {:induction false} ApplicableMeaning(updates: seq<PackageUpdate>, securityOnly: bool)
    ensures forall name :: name in Applicable(updates, securityOnly)
                      <==> exists i :: 0 <= i < |updates| && updates[i].name == name && Applies(updates[i], securityOnly)
  {
    if updates != [] {
      var n := |updates| - 1;
      ApplicableMeaning(updates[..n], securityOnly);
      forall name
        ensures name in Applicable(updates, securityOnly)
           <==> exists i :: 0 <= i < |updates| && updates[i].name == name && Applies(updates[i], securityOnly)
      {
        if i :| 0 <= i < |updates| && updates[i].name == name && Applies(updates[i], securityOnly) {
          assert i < n ==> updates[..n][i] == updates[i];
        }
      }
    }
  }

  lemma {:induction false} FirstInvalidMeaning(names: seq<string>)
    ensures match FirstInvalid(names)
            case None => forall i :: 0 <= i < |names| ==> ValidPackageName(names[i])
            case Some(name) =>
              exists i :: 0 <= i < |names| && names[i] == name && !ValidPackageName(name)
                          && forall j :: 0 <= j < i ==> ValidPackageName(names[j])
  {
    if names != [] {
      FirstInvalidMeaning(names[1..]);
      if ValidPackageName(names[0]) && FirstInvalid(names).Some? {
        var name := FirstInvalid(names).value;
        var i :| 0 <= i < |names[1..]| && names[1..][i] == name && !ValidPackageName(name)
                 && forall j :: 0 <= j < i ==> ValidPackageName(names[1..][j]);
        assert names[i + 1] == name;
        assert forall j :: 0 < j < i + 1 ==> names[j] == names[1..][j - 1];
      } else {
        assert forall i :: 0 < i < |names| ==> names[i] == names[1..][i - 1];
      }
    }
  }

  /** The cached update stands in the way of installing these packages. */
  predicate Blocks(u: PackageUpdate, names: seq<string>) {
    u.held && u.name in names
  }

  lemma {:induction false} FirstHeldMeaning(updates: seq<PackageUpdate>, names: seq<string>)
    ensures match FirstHeld(updates, names)
            case None => forall i :: 0 <= i < |updates| ==> !Blocks(updates[i], names)
            case Some(name) =>
              exists i :: 0 <= i < |updates| && updates[i].name == name && Blocks(updates[i], names)
                          && forall j :: 0 <= j < i ==> !Blocks(updates[j], names)
  {
    if updates != [] {
      FirstHeldMeaning(updates[1..], names);
      if !Blocks(updates[0], names) && FirstHeld(updates, names).Some? {
        var name := FirstHeld(updates, names).value;
        var i :| 0 <= i < |updates[1..]| && updates[1..][i].name == name && Blocks(updates[1..][i], names)
                 && forall j :: 0 <= j < i ==> !Blocks(updates[1..][j], names);
        assert Blocks(updates[i + 1], names);
        assert forall j :: 0 < j < i + 1 ==> updates[j] == updates[1..][j - 1];
      } else {
        assert forall i :: 0 < i < |updates| ==> updates[i] == updates[1..][i - 1];
      }
    }
  }

  /** Nothing speaks against the request: no job is running, a request for "all" finds something
      applicable, every name is well formed, none is held, and the manager is supported. A request for
      given packages need not name any. */
  ghost predicate Acceptable(kind: Manager, root: bool, p: Process, req: Request) {
    && p.status.kind != Running
    && (root ==> kind != NoManager)
    && (req.all ==> exists i :: 0 <= i < |p.updates| && Applies(p.updates[i], req.securityOnly))
    && (forall name :: name in Requested(p.updates, req) ==> ValidPackageName(name))
    && (forall u :: u in p.updates ==> !Blocks(u, Requested(p.updates, req)))
  }

  lemma AcceptableMeansNoObjection(kind: Manager, root: bool, p: Process, req: Request)
    ensures Objection(kind, root, p, req) == None <==> Acceptable(kind, root, p, req)
  {
    var names := Requested(p.updates, req);
    FirstInvalidMeaning(names);
    FirstHeldMeaning(p.updates, names);
    ApplicableMeaning(p.updates, req.securityOnly);
    assert names != [] ==> names[0] in names;
    if req.all && exists i :: 0 <= i < |p.updates| && Applies(p.updates[i], req.securityOnly) {
      var i :| 0 <= i < |p.updates| && Applies(p.updates[i], req.securityOnly);
      assert p.updates[i].name in names;
    }
  }

  /** A job starts exactly when the request is acceptable and the launch works. A refused request changes
      nothing; a failed launch has removed the exit and log files of the job before. */
  lemma StartsExactlyWhen(kind: Manager, root: bool, d: Disk, p: Process, req: Request, now: nat, launch: nat, launched: bool)
    ensures var (disk, process, reply) := Begin(kind, root, d, p, req, now, launch, launched);
            && (reply.Started? <==> launched && Acceptable(kind, root, p, req))
            && (reply == Refused(LaunchFailed) <==> !launched && Acceptable(kind, root, p, req))
            && (!reply.Started? ==> process == p)
            && (!reply.Started? && reply != Refused(LaunchFailed) ==> disk == d)
            && (reply == Refused(LaunchFailed) ==> disk == d.(exit := None, log := None))
            && (reply.Started? ==>
                  && disk == Disk(Saved(Job(Requested(p.updates, req), now, launch)), None, None, d.updates)
                  && process.status.kind == Running && process.status.packages == Requested(p.updates, req)
                  && process.updates == p.updates && |process.watchers| == |p.watchers| + 1)
  {
    AcceptableMeansNoObjection(kind, root, p, req);
  }
}
