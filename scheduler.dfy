/**
 * The `Scheduler` class: the command table, node-cron's jobs, the
 * execution guard's maps and the watcher, updated in place by imperative
 * methods. Each method is proved to change the state exactly as the pure
 * transition functions of modules Registry and Guard say, so the lemmas
 * proved there about those functions hold of the object.
 *
 * Asynchrony is made explicit: the Promise of `exec` becomes the runs
 * recorded in `runs`, and the runtime's events (a timer firing, a handler
 * settling, a cron job or the watcher's interval ticking) are methods that
 * may be called in any order their preconditions allow.
 */
module Scheduling {
  import opened Common
  import opened Registry
  import opened Guard

  /** The watcher's handle is live, and no other interval is. */
  ghost predicate WatchOnly(watcher: Option<nat>, intervals: seq<bool>)
  {
    && (watcher.Some? ==> watcher.value < |intervals| && intervals[watcher.value])
    && (forall h :: 0 <= h < |intervals| && intervals[h] ==> watcher == Some(h))
  }

  /** Every run is of a defined command, and only defined commands are locked. */
  ghost predicate RunsDefined(runs: seq<Run>, locks: map<string, bool>, commands: map<string, Command>)
  {
    && (forall r :: 0 <= r < |runs| ==> runs[r].command in commands)
    && locks.Keys <= commands.Keys
  }

  class Scheduler {
    /** Only decides whether progress is logged. */
    const debug: bool
    /** The directory the listing given to a rescan comes from. */
    const commandsDirectory: string

    /** Flipped on every tick of the watcher. */
    var ping: bool
    /** The handle of the watcher's interval timer; None stands for `false`. */
    var watcher: Option<nat>
    /** The runtime's interval timers by handle: true until cleared. */
    var intervals: seq<bool>

    /** `#commands`, keyed by command name. */
    var commands: map<string, Command>
    /** node-cron's scheduled jobs by handle. */
    var cron: seq<CronJob>

    /** `#locks`, `#jobs` and `#timeouts`, keyed by command name. */
    var locks: map<string, bool>
    var jobs: map<string, int>
    var timeouts: map<string, nat>
    /** The accepted `exec` calls, each with its timer and promise. */
    var runs: seq<Run>
    /** The index of each command's last run. */
    ghost var last: map<string, nat>

    /** The registry part of the state. */
    ghost function Reg(): RegistryState
      reads this`commands, this`cron
    {
      RegistryState(commands, cron)
    }

    /** The execution-guard part of the state. */
    ghost function GuardView(): GuardState
      reads this`locks, this`jobs, this`timeouts, this`runs, this`last
    {
      GuardState(locks, jobs, timeouts, runs, last)
    }


    /**
     * The object invariant: the registry's, only defined commands are ever
     * run or locked, and only the watcher's interval is live. The guard
     * methods (`Exec`, `FireTimeout`, `Settle`) write only the guard's fields
     * and keep `RunsDefined`; the guard's own invariants (`Guard.Inv`,
     * `Guard.Sound`) are proved of the transitions those methods follow.
     */
    ghost predicate Valid()
      reads this
    {
      && Registry.Valid(Reg())
      && RunsDefined(runs, locks, commands)
      && WatchOnly(watcher, intervals)
    }

    /** The state of the run-time events other than the guard's. */
    ghost predicate SameWatch(w: Option<nat>, iv: seq<bool>, p: bool)
      reads this`watcher, this`intervals, this`ping
    {
      watcher == w && intervals == iv && ping == p
    }

    constructor (commandsPath: string, debug: bool)
      ensures Valid() && Inv(GuardView()) && Sound(GuardView())
      ensures Reg() == RegistryState(map[], []) && GuardView() == Guard.Empty
      ensures watcher == None && intervals == [] && !ping
    {
      this.debug := debug;
      this.commandsDirectory := commandsPath;
      ping := false;
      watcher := None;
      intervals := [];
      commands := map[];
      cron := [];
      locks := map[];
      jobs := map[];
      timeouts := map[];
      runs := [];
      last := map[];
      new;
      EmptyValid();
      EmptySound();
    }

    /**
     * `commandExists`: whether the name has an entry. The stored handler is
     * always the (truthy) async wrapper, so an entry is enough.
     */
    function CommandExists(command: string): (b: bool)
      reads this
      ensures b <==> command in commands
    {
      command in commands
    }

    /**
     * `exec(command, timeout)` at the instant `jobId` (the current time in
     * milliseconds): refuses an undefined or locked command, otherwise
     * records the id, takes the lock, arms the timer and calls the handler.
     */
    method Exec(command: string, timeout: Option<int>, jobId: int) returns (res: ExecStart)
      requires RunsDefined(runs, locks, commands)
      modifies this`locks, this`jobs, this`timeouts, this`runs, this`last
      ensures RunsDefined(runs, locks, commands)
      ensures (GuardView(), res) == Start(old(GuardView()), command in old(commands), command, timeout, jobId)
    {
      ghost var g0 := GuardView();
      if command !in commands {
        // logged as not defined; the promise never settles
        res := NotDefined;
        return;
      }
      if !(command in locks && locks[command]) {
        var r := |runs|;
        var armed := timeout.Some? && timeout.value > 0;
        var run := Run(command, jobId, if armed then Armed else NoTimer, false, Pending);
        jobs, locks := jobs[command := jobId], locks[command := true];
        timeouts := if armed then timeouts[command := r] else timeouts;
        runs, last := runs + [run], last[command := r];
        res := Started(r);
      } else {
        res := LockedOut(LockedReason(command));
      }
      assert (GuardView(), res) == Start(g0, true, command, timeout, jobId);
    }

    /** The timer armed by run `r` fires: release the lock and reject the run's promise. */
    method FireTimeout(r: nat)
      requires RunsDefined(runs, locks, commands) && r < |runs| && runs[r].timer == Armed
      modifies this`locks, this`runs
      ensures RunsDefined(runs, locks, commands)
      ensures GuardView() == Fire(old(GuardView()), r)
    {
      ghost var g0 := GuardView();
      var run := runs[r];
      var c := run.command;
      locks := locks[c := false];
      var outcome := if run.outcome == Pending then Rejected(TimeoutReason(c)) else run.outcome;
      runs := runs[r := run.(timer := Fired, outcome := outcome)];
      assert GuardView() == Fire(g0, r);
    }

    /**
     * The handler of run `r` settles and the `.finally` callback runs: if
     * the run is still the command's current one, clear the stored timer and
     * release the lock, else log a stale completion; resolve with `true`.
     */
    method Settle(r: nat)
      requires RunsDefined(runs, locks, commands) && r < |runs| && !runs[r].settled
      modifies this`locks, this`runs
      ensures RunsDefined(runs, locks, commands)
      ensures GuardView() == Guard.Settle(old(GuardView()), r)
    {
      ghost var g0 := GuardView();
      var c := runs[r].command;
      // an absent `#jobs[command]` is `undefined`, never equal to the id
      if c in jobs && jobs[c] == runs[r].jobId {
        if c in timeouts {
          // `clearTimeout` affects only a timer still armed
          var t := timeouts[c];
          if t < |runs| && runs[t].timer == Armed {
            runs := runs[t := runs[t].(timer := Cleared)];
          }
        }
        locks := locks[c := false];
      } else {
        // logged as completed with overcome
      }
      var run := runs[r];
      var outcome := if run.outcome == Pending then Resolved else run.outcome;
      runs := runs[r := run.(settled := true, outcome := outcome)];
      assert GuardView() == Guard.Settle(g0, r);
    }

    /**
     * The live cron job `k` fires: `exec` its command with the command's
     * timeout as stored now; a rejection is caught and only logged.
     */
    method FireCronJob(k: nat, jobId: int) returns (res: ExecStart)
      requires Valid() && k < |cron| && cron[k].stops == 0
      modifies this
      ensures Valid()
      ensures res != NotDefined
      ensures var c := old(cron)[k].command;
        c in old(commands)
        && (GuardView(), res) == Start(old(GuardView()), true, c, Some(old(commands)[c].timeout), jobId)
      ensures Reg() == old(Reg()) && SameWatch(old(watcher), old(intervals), old(ping))
    {
      var c := cron[k].command;
      assert Owns(commands, c, k);
      res := Exec(c, Some(commands[c].timeout), jobId);
    }

    /** `task.job.stop()` for each of `tasks`, in order. */
    method StopJobs(tasks: seq<Task>)
      modifies this`cron
      ensures cron == StopTasks(old(cron), tasks)
    {
      var i := 0;
      while i < |tasks|
        invariant 0 <= i <= |tasks|
        invariant cron == StopTasks(old(cron), tasks[..i])
      {
        var job := tasks[i].job;
        if job < |cron| {
          cron := cron[job := cron[job].(stops := cron[job].stops + 1)];
        }
        assert tasks[..i + 1][..i] == tasks[..i];
        i := i + 1;
      }
      assert tasks[..|tasks|] == tasks;
    }

    /**
     * For each expression, schedule a cron job that runs the command and
     * push the task onto the entry's task list, emptied beforehand; `base`
     * and `entry` name the table as it stands apart from that list.
     */
    method BindJobs(name: string, exprs: seq<string>, ghost base: map<string, Command>, ghost entry: Command)
      requires commands == base[name := entry] && entry.tasks == []
      modifies this`commands, this`cron
      ensures name in commands
      ensures (commands[name].tasks, cron) == BindTasks(old(cron), name, exprs)
      ensures commands == base[name := entry.(tasks := commands[name].tasks)]
    {
      var j := 0;
      while j < |exprs|
        invariant 0 <= j <= |exprs|
        invariant name in commands
        invariant (commands[name].tasks, cron) == BindTasks(old(cron), name, exprs[..j])
        invariant commands == base[name := entry.(tasks := commands[name].tasks)]
      {
        var job := |cron|;
        cron := cron + [CronJob(name, exprs[j], 0)];
        commands := commands[name := commands[name].(tasks := commands[name].tasks + [Task(exprs[j], job)])];
        assert exprs[..j + 1][..j] == exprs[..j];
        j := j + 1;
      }
      assert exprs[..|exprs|] == exprs;
    }

    /**
     * Stores the module loaded for `name` (whose handler is `handler`):
     * add the entry, or update its handler, version and timeout, stop its
     * old tasks' jobs and empty its task list; then bind the new schedule
     * when `bind` holds.
     */
    method Store(name: string, handler: HandlerRef, m: Module, version: int, bind: bool)
      requires name in commands ==> commands[name].name == name
      modifies this`commands, this`cron
      ensures Reg() == Reload(old(Reg()), name, handler, m, version, bind)
    {
      ghost var st0 := Reg();
      ghost var stopped := if name in st0.commands then StopTasks(st0.cron, st0.commands[name].tasks) else st0.cron;
      var timeout := DefaultTimeout;
      if m.timeout.Some? {
        timeout := m.timeout.value;
      }
      if name !in commands {
        commands := commands[name := Command(name, handler, timeout, version, [])];
      } else {
        var oldTasks := commands[name].tasks;
        commands := commands[name := commands[name].(handler := handler, version := version, timeout := timeout)];
        StopJobs(oldTasks);
        commands := commands[name := commands[name].(tasks := [])];
      }
      assert commands == st0.commands[name := Command(name, handler, timeout, version, [])];
      if bind && m.schedule.Some? && m.schedule.value != Single("") {
        var exprs := if m.schedule.value.Single? then [m.schedule.value.expr] else m.schedule.value.exprs;
        assert exprs == Expressions(m.schedule);
        BindJobs(name, exprs, st0.commands, Command(name, handler, timeout, version, []));
      }
    }

    /**
     * One iteration of the rescan loop for a directory entry: skip it when
     * its version is unchanged or it is not the requested command, else
     * import it, check its handler and store it. Returns whether its name
     * is pushed onto `updated`.
     */
    method ProcessDirectory(e: ScanEntry, specific: Option<string>) returns (present: bool)
      requires Valid() && e.isDirectory
      modifies this`commands, this`cron
      ensures Valid()
      ensures (Reg(), present) == EntryStep(old(Reg()), e, specific)
    {
      ghost var st0 := Reg();
      var name := e.name;
      if e.stat.StatFailed? {
        // logged as an import failure
        present := false;
      } else {
        var mtime := e.stat.mtime;
        var baseResolved := name !in commands;
        var versionResolved := !baseResolved && commands[name].version != mtime;
        var specificResolved := specific.None? || specific.value == name;
        if !((baseResolved || versionResolved) && specificResolved) {
          present := true;
        } else if e.load.ImportFailed? {
          // logged as an import failure
          present := false;
        } else if e.load.exports.handler.None? {
          // the handler check throws before anything is changed
          present := false;
        } else {
          Store(name, e.load.exports.handler.value, e.load.exports, mtime, Unspecified(specific));
          present := true;
        }
      }
      EntryStepValid(st0, e, specific, Reg());
    }

    /**
     * `#parseCommands(specificCommand)`: one rescan over the listing. The
     * removal pass that follows in the source is guarded by
     * `Array.isArray(#commands)`, which is false for the plain object the
     * table is, so no command is ever removed.
     */
    method ParseCommands(entries: seq<ScanEntry>, specific: Option<string>) returns (updated: seq<string>)
      requires Valid()
      modifies this
      ensures Valid()
      ensures ScanResult(Reg(), updated) == Scan(old(Reg()), entries, specific)
      ensures GuardView() == old(GuardView()) && SameWatch(old(watcher), old(intervals), old(ping))
      ensures forall x :: CommandExists(x) <==>
        x in old(commands) || exists i :: 0 <= i < |entries| && entries[i].name == x && Registers(entries[i], specific)
    {
      ghost var st0 := Reg();
      updated := [];
      var i := 0;
      while i < |entries|
        invariant 0 <= i <= |entries|
        invariant Valid()
        invariant ScanResult(Reg(), updated) == Scan(old(Reg()), entries[..i], specific)
        invariant GuardView() == old(GuardView()) && SameWatch(old(watcher), old(intervals), old(ping))
      {
        var e := entries[i];
        if e.isDirectory {
          var present := ProcessDirectory(e, specific);
          if present {
            updated := updated + [e.name];
          }
        }
        assert entries[..i + 1][..i] == entries[..i];
        i := i + 1;
      }
      assert entries[..|entries|] == entries;
      forall x
        ensures CommandExists(x) <==>
          x in st0.commands || exists i :: 0 <= i < |entries| && entries[i].name == x && Registers(entries[i], specific)
      {
        ScanRegisters(st0, entries, specific, x);
      }
    }

    /** `unwatch`: clear the watcher's interval, if any. */
    method Unwatch()
      requires Valid()
      modifies this
      ensures Valid()
      ensures watcher == None && |intervals| == |old(intervals)|
      ensures forall h :: 0 <= h < |intervals| ==> !intervals[h]
      ensures ping == old(ping) && Reg() == old(Reg()) && GuardView() == old(GuardView())
    {
      if watcher.Some? {
        intervals := intervals[watcher.value := false];
      }
      watcher := None;
    }

    /** `watch`: unwatch, reset `ping`, and start a new interval; it is then the only live one. */
    method Watch()
      requires Valid()
      modifies this
      ensures Valid()
      ensures watcher == Some(|old(intervals)|) && |intervals| == |old(intervals)| + 1 && !ping
      ensures forall h :: 0 <= h < |intervals| ==> (intervals[h] <==> h == |old(intervals)|)
      ensures Reg() == old(Reg()) && GuardView() == old(GuardView())
    {
      Unwatch();
      ping := false;
      watcher := Some(|intervals|);
      intervals := intervals + [true];
    }

    /** A tick of the live interval `h`: flip `ping` and rescan everything. */
    method Tick(h: nat, entries: seq<ScanEntry>)
      requires Valid() && h < |intervals| && intervals[h]
      modifies this
      ensures Valid()
      ensures ping == !old(ping) && watcher == old(watcher) && intervals == old(intervals)
      ensures Reg() == Scan(old(Reg()), entries, None).state
      ensures forall x :: CommandExists(x) <==>
        x in old(commands) || exists i :: 0 <= i < |entries| && entries[i].name == x && Registers(entries[i], None)
      ensures GuardView() == old(GuardView())
    {
      ping := !ping;
      var _ := ParseCommands(entries, None);
    }

    /** `init(specificCommand)`: a first scan, then the watcher unless a command was requested. */
    method Init(entries: seq<ScanEntry>, specific: Option<string>)
      requires Valid()
      modifies this
      ensures Valid()
      ensures Reg() == Scan(old(Reg()), entries, specific).state && GuardView() == old(GuardView())
      ensures forall x :: CommandExists(x) <==>
        x in old(commands) || exists i :: 0 <= i < |entries| && entries[i].name == x && Registers(entries[i], specific)
      ensures Unspecified(specific) ==>
        && watcher == Some(|old(intervals)|) && |intervals| == |old(intervals)| + 1 && !ping
        && forall h :: 0 <= h < |intervals| ==> (intervals[h] <==> h == |old(intervals)|)
      ensures !Unspecified(specific) ==> SameWatch(old(watcher), old(intervals), old(ping))
    {
      var _ := ParseCommands(entries, specific);
      if Unspecified(specific) {
        Watch();
      }
    }
  }
}
