/**
 * The command registry of the scheduler: what one rescan of the commands
 * directory (`#parseCommands`) does to the table of commands and to the
 * cron jobs bound for them, written as pure functions over a registry
 * state, with the lemmas that state what a rescan promises.
 *
 * The file system, the dynamic import and node-cron are inputs: a rescan
 * is given the directory listing as a sequence of `ScanEntry` values, each
 * carrying what `stat` and `import` would return for that entry, and
 * node-cron is a table of job handles that can only be appended to
 * (`cron.schedule`) or stopped (`job.stop()`).
 */
module Registry {
  import opened Common

  /** Timeout in milliseconds given to a command whose module exports none. */
  const DefaultTimeout: int := 10000

  /** An opaque reference to the handler function a command module exports. */
  type HandlerRef = nat

  /** The `schedule` export: a single cron expression or an array of them. */
  datatype ScheduleExport = Single(expr: string) | List(exprs: seq<string>)

  /**
   * The exports of a loaded command module. `handler` is None when the
   * export is missing (falsy); `schedule` is None when it is missing or
   * falsy; `timeout` is `parseInt` of the export, None when the export is
   * undefined or parses to NaN.
   */
  datatype Module = Module(handler: Option<HandlerRef>, schedule: Option<ScheduleExport>, timeout: Option<int>)

  /** What the cache-busting `import` of a command's index.js produced. */
  datatype LoadResult = ImportFailed | Loaded(exports: Module)

  /** What `stat` of a command's index.js produced: a failure or its mtime. */
  datatype StatResult = StatFailed | Stamp(mtime: int)

  /** One entry of the commands directory listing. */
  datatype ScanEntry = ScanEntry(name: string, isDirectory: bool, stat: StatResult, load: LoadResult)

  /** A node-cron job: the command it runs, its expression, and how often stop() was called. */
  datatype CronJob = CronJob(command: string, expr: string, stops: nat)

  /** A scheduled task of a command: its cron expression and the handle of its job. */
  datatype Task = Task(schedule: string, job: nat)

  /** A registered command. */
  datatype Command = Command(name: string, handler: HandlerRef, timeout: int, version: int, tasks: seq<Task>)

  /** The command table together with node-cron's table of jobs. */
  datatype RegistryState = RegistryState(commands: map<string, Command>, cron: seq<CronJob>)

  /** What a rescan returns: the new state and the names pushed onto `updated`. */
  datatype ScanResult = ScanResult(state: RegistryState, updated: seq<string>)

  /** The stored timeout: the parsed module timeout if there is one, else the default. */
  function EffectiveTimeout(m: Module): int
  {
    if m.timeout.Some? then m.timeout.value else DefaultTimeout
  }

  /**
   * The cron expressions a module declares, in order: none for a missing or
   * empty-string schedule, a one-element list for a single expression.
   */
  function Expressions(s: Option<ScheduleExport>): seq<string>
  {
    match s
    case None => []
    case Some(Single(e)) => if e == "" then [] else [e]
    case Some(List(es)) => es
  }

  /** Whether a rescan may import `name`: no specific command, or exactly this one. */
  predicate Targets(specific: Option<string>, name: string)
  {
    specific.None? || specific.value == name
  }

  /** `!specificCommand`: no command was requested, or an empty (falsy) name was. */
  predicate Unspecified(specific: Option<string>)
  {
    specific.None? || specific.value == ""
  }

  /** `job.stop()` on one handle. */
  function Stop(cron: seq<CronJob>, job: nat): seq<CronJob>
  {
    if job < |cron| then cron[job := cron[job].(stops := cron[job].stops + 1)] else cron
  }

  /** Stops the job of every task, in the order of the tasks. */
  function StopTasks(cron: seq<CronJob>, tasks: seq<Task>): seq<CronJob>
    decreases |tasks|
  {
    if tasks == [] then cron
    else Stop(StopTasks(cron, tasks[..|tasks| - 1]), tasks[|tasks| - 1].job)
  }

  /** Schedules one new job per expression, in order; returns the tasks and the new job table. */
  function BindTasks(cron: seq<CronJob>, name: string, exprs: seq<string>): (seq<Task>, seq<CronJob>)
    decreases |exprs|
  {
    if exprs == [] then ([], cron)
    else
      var (tasks, cron') := BindTasks(cron, name, exprs[..|exprs| - 1]);
      var e := exprs[|exprs| - 1];
      (tasks + [Task(e, |cron'|)], cron' + [CronJob(name, e, 0)])
  }

  /**
   * Stores a freshly loaded module under `name`: the entry gets the new
   * handler, version and timeout, the jobs of its old tasks are stopped,
   * and one task per declared expression is bound when `bind` holds.
   */
  function Reload(st: RegistryState, name: string, handler: HandlerRef, m: Module, version: int, bind: bool): RegistryState
  {
    var stopped := if name in st.commands then StopTasks(st.cron, st.commands[name].tasks) else st.cron;
    var (tasks, cron) := if bind then BindTasks(stopped, name, Expressions(m.schedule)) else ([], stopped);
    RegistryState(st.commands[name := Command(name, handler, EffectiveTimeout(m), version, tasks)], cron)
  }

  /** Whether an entry with a readable stamp is re-imported: new or changed, and targeted. */
  predicate NeedsImport(st: RegistryState, name: string, mtime: int, specific: Option<string>)
  {
    (name !in st.commands || st.commands[name].version != mtime) && Targets(specific, name)
  }

  /**
   * One iteration of the rescan loop: the new state, and whether the
   * name is pushed onto `updated` (the stat succeeded and nothing threw).
   * Entries that are not directories are filtered out before the loop.
   */
  function EntryStep(st: RegistryState, e: ScanEntry, specific: Option<string>): (RegistryState, bool)
  {
    if !e.isDirectory || e.stat.StatFailed? then (st, false)
    else if !NeedsImport(st, e.name, e.stat.mtime, specific) then (st, true)
    else if e.load.ImportFailed? || e.load.exports.handler.None? then (st, false)
    else (Reload(st, e.name, e.load.exports.handler.value, e.load.exports, e.stat.mtime, Unspecified(specific)), true)
  }

  /** A whole rescan over the directory listing, in listing order. */
  function Scan(st: RegistryState, entries: seq<ScanEntry>, specific: Option<string>): ScanResult
    decreases |entries|
  {
    if entries == [] then ScanResult(st, [])
    else
      var prev := Scan(st, entries[..|entries| - 1], specific);
      var e := entries[|entries| - 1];
      var (st', present) := EntryStep(prev.state, e, specific);
      ScanResult(st', if present then prev.updated + [e.name] else prev.updated)
  }

  /** An entry that makes a rescan register its name when it is not registered yet. */
  predicate Registers(e: ScanEntry, specific: Option<string>)
  {
    e.isDirectory && e.stat.Stamp? && Targets(specific, e.name)
    && e.load.Loaded? && e.load.exports.handler.Some?
  }

  /**
   * The tasks of command `name` hold consecutive job handles, each of
   * them a job of `name` for the task's expression that was never stopped.
   */
  ghost predicate TasksLive(name: string, tasks: seq<Task>, cron: seq<CronJob>)
  {
    forall i :: 0 <= i < |tasks| ==>
      tasks[i].job == tasks[0].job + i && tasks[i].job < |cron|
      && cron[tasks[i].job] == CronJob(name, tasks[i].schedule, 0)
  }

  /** Job `job` belongs to a task of the registered command `name`. */
  ghost predicate Owns(commands: map<string, Command>, name: string, job: nat)
  {
    name in commands && commands[name].tasks != []
    && commands[name].tasks[0].job <= job < commands[name].tasks[0].job + |commands[name].tasks|
  }

  /**
   * The registry invariant: every entry is stored under its own name, every
   * task's job is live, no job was stopped twice, and no live job is
   * leaked (each one belongs to a task of a registered command).
   */
  ghost predicate Valid(st: RegistryState)
  {
    && (forall n :: n in st.commands ==> st.commands[n].name == n && TasksLive(n, st.commands[n].tasks, st.cron))
    && (forall k :: 0 <= k < |st.cron| ==>
          st.cron[k].stops <= 1 && (st.cron[k].stops == 0 ==> Owns(st.commands, st.cron[k].command, k)))
  }

  /** A table with no command and no job is valid. */
  lemma EmptyValid()
    ensures Valid(RegistryState(map[], []))
  {
  }

  /** Binding appends one fresh, live job per expression and returns the matching tasks. */
  lemma {:induction false} BindTasksShape(cron: seq<CronJob>, name: string, exprs: seq<string>)
    ensures |BindTasks(cron, name, exprs).0| == |exprs|
    ensures |BindTasks(cron, name, exprs).1| == |cron| + |exprs|
    ensures BindTasks(cron, name, exprs).1[..|cron|] == cron
    ensures forall i :: 0 <= i < |exprs| ==>
      BindTasks(cron, name, exprs).0[i] == Task(exprs[i], |cron| + i)
      && BindTasks(cron, name, exprs).1[|cron| + i] == CronJob(name, exprs[i], 0)
    decreases |exprs|
  {
    if exprs != [] {
      BindTasksShape(cron, name, exprs[..|exprs| - 1]);
    }
  }

  /**
   * Stopping tasks whose jobs are consecutive live handles adds exactly
   * one stop to each of those jobs and leaves every other job alone.
   */
  lemma {:induction false} StopTasksAt(cron: seq<CronJob>, tasks: seq<Task>, k: nat)
    requires forall i :: 0 <= i < |tasks| ==> tasks[i].job == tasks[0].job + i && tasks[i].job < |cron|
    ensures |StopTasks(cron, tasks)| == |cron|
    ensures k < |cron| ==>
      (StopTasks(cron, tasks)[k] ==
         if tasks != [] && tasks[0].job <= k < tasks[0].job + |tasks|
         then cron[k].(stops := cron[k].stops + 1) else cron[k])
    decreases |tasks|
  {
    if tasks != [] {
      var init := tasks[..|tasks| - 1];
      assert forall i :: 0 <= i < |init| ==> init[i] == tasks[i];
      StopTasksAt(cron, init, k);
    }
  }

  /**
   * In a valid state, stopping the tasks of a registered command stops
   * exactly the live jobs of that command, once each.
   */
  lemma StopOwnTasksAt(st: RegistryState, name: string, k: nat)
    requires Valid(st) && name in st.commands
    ensures |StopTasks(st.cron, st.commands[name].tasks)| == |st.cron|
    ensures k < |st.cron| ==>
      (StopTasks(st.cron, st.commands[name].tasks)[k] ==
         if st.cron[k].command == name && st.cron[k].stops == 0
         then st.cron[k].(stops := 1) else st.cron[k])
  {
    var ts := st.commands[name].tasks;
    StopTasksAt(st.cron, ts, k);
    if k < |st.cron| && ts != [] && ts[0].job <= k < ts[0].job + |ts| {
      assert ts[k - ts[0].job].job == k;
    }
  }

  /** Before rebinding, a reload stops exactly the live jobs of the reloaded command. */
  lemma StopForReload(st: RegistryState, name: string)
    requires Valid(st)
    ensures var stopped := if name in st.commands then StopTasks(st.cron, st.commands[name].tasks) else st.cron;
      && |stopped| == |st.cron|
      && forall k :: 0 <= k < |st.cron| ==>
           stopped[k] == (if st.cron[k].command == name && st.cron[k].stops == 0
                          then st.cron[k].(stops := 1) else st.cron[k])
  {
    var stopped := if name in st.commands then StopTasks(st.cron, st.commands[name].tasks) else st.cron;
    if name in st.commands {
      StopOwnTasksAt(st, name, 0);
    }
    forall k | 0 <= k < |st.cron|
      ensures stopped[k] == (if st.cron[k].command == name && st.cron[k].stops == 0
                             then st.cron[k].(stops := 1) else st.cron[k])
    {
      if name in st.commands {
        StopOwnTasksAt(st, name, k);
      } else if st.cron[k].stops == 0 {
        assert Owns(st.commands, st.cron[k].command, k);
      }
    }
  }

  /**
   * The shape of a reload: the table of jobs keeps its length up to the
   * appended jobs, the live jobs of `name` are stopped once, every other
   * job is unchanged, and the new tasks are the appended jobs, in order.
   */
  lemma ReloadShape(st: RegistryState, name: string, handler: HandlerRef, m: Module, version: int, bind: bool)
    requires Valid(st)
    ensures var r := Reload(st, name, handler, m, version, bind);
      var exprs := if bind then Expressions(m.schedule) else [];
      && name in r.commands
      && r.commands[name] == Command(name, handler, EffectiveTimeout(m), version, r.commands[name].tasks)
      && (forall n :: n in st.commands && n != name ==> n in r.commands && r.commands[n] == st.commands[n])
      && r.commands.Keys == st.commands.Keys + {name}
      && |r.cron| == |st.cron| + |exprs|
      && (forall k :: 0 <= k < |st.cron| ==>
            (r.cron[k] ==
               if st.cron[k].command == name && st.cron[k].stops == 0
               then st.cron[k].(stops := 1) else st.cron[k]))
      && |r.commands[name].tasks| == |exprs|
      && (forall i :: 0 <= i < |exprs| ==>
            r.commands[name].tasks[i] == Task(exprs[i], |st.cron| + i)
            && r.cron[|st.cron| + i] == CronJob(name, exprs[i], 0))
  {
    var stopped := if name in st.commands then StopTasks(st.cron, st.commands[name].tasks) else st.cron;
    StopForReload(st, name);
    var exprs := if bind then Expressions(m.schedule) else [];
    BindTasksShape(stopped, name, exprs);
    var r := Reload(st, name, handler, m, version, bind);
    assert (r.commands[name].tasks, r.cron) == BindTasks(stopped, name, exprs);
    forall k | 0 <= k < |st.cron|
      ensures r.cron[k] == stopped[k]
    {
      assert r.cron[k] == r.cron[..|stopped|][k];
    }
  }

  /** Reloading one command keeps the registry invariant. */
  lemma ReloadValid(st: RegistryState, name: string, handler: HandlerRef, m: Module, version: int, bind: bool)
    requires Valid(st)
    ensures Valid(Reload(st, name, handler, m, version, bind))
  {
    ReloadShape(st, name, handler, m, version, bind);
    var r := Reload(st, name, handler, m, version, bind);
    forall n | n in r.commands && n != name
      ensures TasksLive(n, r.commands[n].tasks, r.cron)
    {
      var ts := st.commands[n].tasks;
      assert TasksLive(n, ts, st.cron);
      forall i | 0 <= i < |ts|
        ensures ts[i].job < |r.cron| && r.cron[ts[i].job] == CronJob(n, ts[i].schedule, 0)
      {
        assert st.cron[ts[i].job] == CronJob(n, ts[i].schedule, 0);
      }
    }
    forall k | 0 <= k < |r.cron|
      ensures r.cron[k].stops <= 1 && (r.cron[k].stops == 0 ==> Owns(r.commands, r.cron[k].command, k))
    {
      if k < |st.cron| {
        if st.cron[k].stops == 0 && st.cron[k].command != name {
          assert Owns(st.commands, st.cron[k].command, k);
        }
      } else {
        assert r.commands[name].tasks[k - |st.cron|].job == k;
      }
    }
  }

  /** One loop iteration keeps the registry invariant. */
  lemma EntryStepValid(st: RegistryState, e: ScanEntry, specific: Option<string>, st': RegistryState)
    requires Valid(st) && st' == EntryStep(st, e, specific).0
    ensures Valid(st')
    ensures st.commands.Keys <= st'.commands.Keys
  {
    if e.isDirectory && e.stat.Stamp? && NeedsImport(st, e.name, e.stat.mtime, specific)
       && e.load.Loaded? && e.load.exports.handler.Some? {
      ReloadValid(st, e.name, e.load.exports.handler.value, e.load.exports, e.stat.mtime, Unspecified(specific));
    }
  }

  /** A whole rescan keeps the registry invariant. */
  lemma {:induction false} ScanValid(st: RegistryState, entries: seq<ScanEntry>, specific: Option<string>)
    requires Valid(st)
    ensures Valid(Scan(st, entries, specific).state)
    decreases |entries|
  {
    if entries != [] {
      ScanValid(st, entries[..|entries| - 1], specific);
      var prev := Scan(st, entries[..|entries| - 1], specific).state;
      EntryStepValid(prev, entries[|entries| - 1], specific, EntryStep(prev, entries[|entries| - 1], specific).0);
    }
  }

  /**
   * A directory whose stored version equals its stamp, or that is not the
   * requested command, is not re-imported: the whole state is unchanged,
   * and the name still counts as present.
   */
  lemma SkippedEntryUnchanged(st: RegistryState, e: ScanEntry, specific: Option<string>)
    requires e.isDirectory && e.stat.Stamp?
    requires (e.name in st.commands && st.commands[e.name].version == e.stat.mtime) || !Targets(specific, e.name)
    ensures EntryStep(st, e, specific) == (st, true)
  {
  }

  /**
   * A failing stat, a failing import or a module without a handler
   * changes nothing and keeps the name out of `updated`.
   */
  lemma FailedEntryUnchanged(st: RegistryState, e: ScanEntry, specific: Option<string>)
    requires e.isDirectory
    requires e.stat.StatFailed?
      || (NeedsImport(st, e.name, e.stat.mtime, specific) && (e.load.ImportFailed? || e.load.exports.handler.None?))
    ensures EntryStep(st, e, specific) == (st, false)
  {
  }

  /**
   * A new or changed command that loads is stored with the handler, the
   * stamp as version and the parsed timeout (10000 when the module has
   * none); every other command is unchanged.
   */
  lemma ReloadedEntryStored(st: RegistryState, e: ScanEntry, specific: Option<string>)
    requires Registers(e, specific) && NeedsImport(st, e.name, e.stat.mtime, specific)
    ensures var (st', present) := EntryStep(st, e, specific);
      && present
      && e.name in st'.commands
      && st'.commands[e.name].name == e.name
      && st'.commands[e.name].handler == e.load.exports.handler.value
      && st'.commands[e.name].version == e.stat.mtime
      && st'.commands[e.name].timeout == (if e.load.exports.timeout.Some? then e.load.exports.timeout.value else 10000)
      && st'.commands.Keys == st.commands.Keys + {e.name}
      && (forall n :: n in st.commands && n != e.name ==> st'.commands[n] == st.commands[n])
  {
  }

  /**
   * On reload every job of the old tasks is stopped exactly once (none was
   * stopped before), every other job is untouched, and the new tasks are
   * fresh live jobs, one per declared expression in declaration order, or
   * none at all when a specific command was requested.
   */
  lemma ReloadedEntryRebound(st: RegistryState, e: ScanEntry, specific: Option<string>)
    requires Valid(st)
    requires Registers(e, specific) && NeedsImport(st, e.name, e.stat.mtime, specific)
    ensures var st' := EntryStep(st, e, specific).0;
      var oldTasks := if e.name in st.commands then st.commands[e.name].tasks else [];
      var exprs := if Unspecified(specific) then Expressions(e.load.exports.schedule) else [];
      && |st'.cron| == |st.cron| + |exprs|
      && (forall i :: 0 <= i < |oldTasks| ==>
            st.cron[oldTasks[i].job].stops == 0 && st'.cron[oldTasks[i].job].stops == 1)
      && (forall k :: 0 <= k < |st.cron| && st.cron[k].command != e.name ==> st'.cron[k] == st.cron[k])
      && |st'.commands[e.name].tasks| == |exprs|
      && (forall i :: 0 <= i < |exprs| ==>
            st'.commands[e.name].tasks[i] == Task(exprs[i], |st.cron| + i)
            && st'.cron[|st.cron| + i] == CronJob(e.name, exprs[i], 0))
  {
    var m := e.load.exports;
    ReloadShape(st, e.name, m.handler.value, m, e.stat.mtime, Unspecified(specific));
    var st' := EntryStep(st, e, specific).0;
    assert st' == Reload(st, e.name, m.handler.value, m, e.stat.mtime, Unspecified(specific));
    if e.name in st.commands {
      var ts := st.commands[e.name].tasks;
      assert TasksLive(e.name, ts, st.cron);
      forall i | 0 <= i < |ts|
        ensures st.cron[ts[i].job].stops == 0 && st'.cron[ts[i].job].stops == 1
      {
        assert st.cron[ts[i].job] == CronJob(e.name, ts[i].schedule, 0);
      }
    }
  }

  /** Two command tables agree on `x`: both lack it or both hold the same entry. */
  ghost predicate Agree(a: map<string, Command>, b: map<string, Command>, x: string)
  {
    (x in a <==> x in b) && (x in a ==> a[x] == b[x])
  }

  /** A rescan leaves alone every command that no listing entry names. */
  lemma {:induction false} ScanLeavesUnlisted(st: RegistryState, entries: seq<ScanEntry>, specific: Option<string>, x: string)
    requires forall i :: 0 <= i < |entries| ==> entries[i].name != x
    ensures Agree(Scan(st, entries, specific).state.commands, st.commands, x)
    decreases |entries|
  {
    if entries != [] {
      ScanLeavesUnlisted(st, entries[..|entries| - 1], specific, x);
    }
  }

  /**
   * `commandExists(x)` after a rescan: `x` is registered exactly when it
   * was registered before or some entry of the listing registers it. A
   * rescan never removes a command.
   */
  lemma {:induction false} ScanRegisters(st: RegistryState, entries: seq<ScanEntry>, specific: Option<string>, x: string)
    ensures x in Scan(st, entries, specific).state.commands <==>
      x in st.commands || exists i :: 0 <= i < |entries| && entries[i].name == x && Registers(entries[i], specific)
    decreases |entries|
  {
    if entries != [] {
      var init := entries[..|entries| - 1];
      ScanRegisters(st, init, specific, x);
      assert forall i :: 0 <= i < |init| ==> init[i] == entries[i];
      var e := entries[|entries| - 1];
      if x in Scan(st, entries, specific).state.commands && x !in Scan(st, init, specific).state.commands {
        assert e.name == x && Registers(e, specific);
      }
    }
  }

  /** A rescan over a concatenated listing is a rescan of each part in turn. */
  lemma {:induction false} ScanAppend(st: RegistryState, a: seq<ScanEntry>, b: seq<ScanEntry>, specific: Option<string>)
    ensures var first := Scan(st, a, specific);
      var second := Scan(first.state, b, specific);
      Scan(st, a + b, specific) == ScanResult(second.state, first.updated + second.updated)
    decreases |b|
  {
    if b == [] {
      assert a + b == a;
    } else {
      var b' := b[..|b| - 1];
      assert (a + b)[..|a + b| - 1] == a + b';
      ScanAppend(st, a, b', specific);
    }
  }

  /**
   * A second look at an entry that a step has just processed changes
   * nothing and gives the same verdict, in any state that agrees with the
   * step's result on that entry's name.
   */
  lemma EntryStepAgain(st: RegistryState, e: ScanEntry, specific: Option<string>, other: RegistryState)
    requires Agree(other.commands, EntryStep(st, e, specific).0.commands, e.name)
    ensures EntryStep(other, e, specific) == (other, EntryStep(st, e, specific).1)
  {
  }

  /**
   * Rescanning an unchanged listing (distinct names) changes nothing: no
   * reload, no stopped or new job, and the same names are reported present.
   */
  lemma {:induction false} RescanIsStable(st: RegistryState, entries: seq<ScanEntry>, specific: Option<string>)
    requires forall i, j :: 0 <= i < j < |entries| ==> entries[i].name != entries[j].name
    ensures Scan(Scan(st, entries, specific).state, entries, specific) == Scan(st, entries, specific)
  {
    var s := Scan(st, entries, specific).state;
    RescanPrefixStable(st, entries, specific, |entries|);
    assert entries[..|entries|] == entries;
  }

  /** The induction behind RescanIsStable, over the prefixes of the listing. */
  lemma {:induction false} RescanPrefixStable(st: RegistryState, entries: seq<ScanEntry>, specific: Option<string>, n: nat)
    requires n <= |entries|
    requires forall i, j :: 0 <= i < j < |entries| ==> entries[i].name != entries[j].name
    ensures var s := Scan(st, entries, specific).state;
      Scan(s, entries[..n], specific) == ScanResult(s, Scan(st, entries[..n], specific).updated)
    decreases n
  {
    var s := Scan(st, entries, specific).state;
    if n > 0 {
      RescanPrefixStable(st, entries, specific, n - 1);
      var e := entries[n - 1];
      assert entries[..n][..n - 1] == entries[..n - 1];
      var after := Scan(st, entries[..n], specific).state;
      var rest := entries[n..];
      assert entries == entries[..n] + rest;
      ScanAppend(st, entries[..n], rest, specific);
      ScanLeavesUnlisted(after, rest, specific, e.name);
      EntryStepAgain(Scan(st, entries[..n - 1], specific).state, e, specific, s);
    }
  }
}
