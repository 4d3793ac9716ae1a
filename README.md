# Scheduler: a verified model of the command scheduler's core

The scheduler runs "commands". Each command is a folder under a commands
directory whose `index.js` exports a `handler`, an optional cron
`schedule` (one expression or a list) and an optional `timeout`. This
project models the `Scheduler` class of `src/scheduler.js` in Dafny and
proves what it promises. The class has two stateful parts.

- The **execution guard** (`exec`) keeps a per-command lock (`#locks`),
  the id of the command's current run (`#jobs`, a millisecond time
  stamp) and its timeout timer (`#timeouts`). A locked command refuses new
  calls. A timer that fires releases the lock and rejects the call's
  promise. A handler settlement releases the lock and clears the timer
  only when its run id is still the current one; otherwise it is a stale
  completion that is only logged. Either way the promise then resolves
  with `true`, unless its timer already rejected it.
- The **registry rescan** (`#parseCommands`) walks the listing of the
  commands directory. An entry whose stored version equals its `mtimeMs`,
  or that is not the requested command, is left alone but still counted
  as present. Any other entry is imported. It is added, or updated in
  place: its old cron jobs are stopped and its task list emptied. One cron
  job is then bound per schedule expression, unless a specific command was
  requested. A failed stat, a failed import or a missing `handler` changes
  nothing. `watch` starts the 5-second interval that rescans on every
  tick, after clearing the previous interval with `unwatch`.

Files:

- `common.dfy`: module `Common`, the `Option` type.
- `registry.dfy`: module `Registry`. The command table and node-cron's
  jobs (`RegistryState`), one loop iteration of the rescan (`EntryStep`)
  and a whole rescan (`Scan`) as pure functions. Also the registry
  invariant `Valid` and the lemmas about a rescan.
- `guard.dfy`: module `Guard`. The guard's maps and every accepted run
  (`GuardState`). The three events are pure transitions: `Start` (the
  synchronous part of `exec`), `Fire` (a timer fires) and `Settle` (a
  handler settles and its `.finally` runs). Also the invariants `Inv`
  and `Sound` and the lemmas about them.
- `scheduler.dfy`: module `Scheduling`, class `Scheduler`. Its fields
  are the source's fields, updated in place by imperative methods. Each
  method is proved to produce exactly the state given by the `Registry`
  or `Guard` transition function, so the lemmas about those functions
  hold of the object.
- `scenarios.dfy`: module `Scenarios`, concrete runs of the model.

Modelling choices:

- The Promise of `exec` is made explicit as a `Run`. A run records its
  command, its id, the state of its timer (none, armed, cleared, fired),
  whether its handler settled, and the promise's outcome. The runtime's
  events are methods or functions that may be applied in any order their
  preconditions allow.
- A timer handle is the index of the run that armed it. A cron job handle
  is an index into the job table, where a job counts how often `stop()`
  was called on it.
- The clock value used as the run id, the directory listing, `stat` and
  `import` results are all parameters.
- `GuardState.last` (each command's last run) is bookkeeping of the
  model. It is a ghost field of the class and not a field of the source.
- Two guard invariants are proved. `Inv` holds whatever ids the clock
  produces. `Sound` adds that the ids of one command's runs are distinct
  (a fresh id for each call). Under `Sound`, a command is locked exactly
  while its last run is unresolved, and only that run can be unresolved.

Where the code and the design documentation of the repository disagree,
the model follows the code:

- The documentation says a command whose folder disappears is removed
  and its jobs stopped. In the code the removal pass
  (src/scheduler.js:204-219) is guarded by `Array.isArray(this.#commands)`.
  That guard is false for the plain object `{}` the table is, so no
  command is ever removed. `Registry.ScanLeavesUnlisted` states this.
- The documentation says the lock is held exactly while a run id is
  active. The code never clears `#jobs`. A timeout releases the lock but
  keeps the id, so a late settlement of that run still counts as
  current when no newer run started (`Scenarios.BuildEarlyCompletionIsCurrent`);
  it is stale only once a newer run has started
  (`Scenarios.BuildLateCompletionIsStale`).
- The documentation says `exec` on an unknown command fails with
  `CommandNotFound`. The code only logs, and the promise never settles.
- The documentation says a settlement reports the handler's own success
  or failure. The code resolves `true` from `.finally` in both cases.
- The documentation asks for run ids that are always distinct. The code
  uses `+new Date()`. `Guard.ReusedIdBreaksExclusion` shows what a
  repeated id allows: a stale settlement releases the lock of a newer run
  that is still pending.
- The documentation says one-shot mode never touches cron triggers. The
  code stops the old jobs of any entry it reloads, whatever
  `specificCommand` is. Only the binding is skipped.

## Model

| member | source | states |
|---|---|---|
| Scheduling.Scheduler.constructor | src/scheduler.js:7-24 | The table, the jobs and the guard's maps start empty, with no watcher and `ping` false. The registry invariant and `Guard.Sound` hold. |
| Scheduling.Scheduler.CommandExists | src/scheduler.js:34-36 | True exactly when the name has an entry in the table. What puts a name there is stated with it on `ParseCommands`, `Tick` and `Init`. |
| Scheduling.Scheduler.Exec | src/scheduler.js:61-103 | The new guard state and the result are exactly `Guard.Start`: nothing for an undefined command, a "locked" rejection, or id, lock, timer and run recorded. Only defined commands are ever run or locked. |
| Scheduling.Scheduler.FireTimeout | src/scheduler.js:78-81 | The new guard state is `Guard.Fire` of the old one. |
| Scheduling.Scheduler.Settle | src/scheduler.js:84-97 | The new guard state is `Guard.Settle` of the old one. |
| Scheduling.Scheduler.FireCronJob | src/scheduler.js:188-192 | A live job's command `c` is always defined, so the result is never "not defined". It `exec`s `c` with the timeout stored at the time it fires. Any rejection is only logged. |
| Scheduling.Scheduler.StopJobs | src/scheduler.js:166-173 | After the loop, the job table is `StopTasks` of the old one: each task's job is stopped once, in order. |
| Scheduling.Scheduler.BindJobs | src/scheduler.js:178-195 | After the loop, the entry's tasks and the job table are `BindTasks`: one fresh job and task per expression, in order. No other entry changes. |
| Scheduling.Scheduler.Store | src/scheduler.js:129-195 | The new table and jobs are `Registry.Reload`: add or update the entry, stop and empty the old tasks, bind the new ones when asked. |
| Scheduling.Scheduler.ProcessDirectory | src/scheduler.js:112-201 | The new table and jobs, and whether the name is pushed onto `updated`, are exactly `Registry.EntryStep`. The registry invariant is kept. |
| Scheduling.Scheduler.ParseCommands | src/scheduler.js:105-220 | The new table and jobs, and the `updated` list, are exactly `Registry.Scan` over the listing. Afterwards `CommandExists(x)` holds exactly when `x` existed before or some listing entry registers it (a targeted directory with a readable stamp whose import yields a handler). The guard and the watcher are untouched and the invariant is kept. |
| Scheduling.Scheduler.Unwatch | src/scheduler.js:48-53 | The watcher's interval is cleared, no interval is left live, and `#watcher` is false. |
| Scheduling.Scheduler.Watch | src/scheduler.js:38-46 | After unwatching, `ping` is false and a new interval is live. It is the only live interval. |
| Scheduling.Scheduler.Tick | src/scheduler.js:42-45 | `ping` flips and the table is a full rescan (`Scan` with no specific command) of the listing; `CommandExists(x)` afterwards exactly when `x` existed or an entry registers it. The watcher and the guard are unchanged. |
| Scheduling.Scheduler.Init | src/scheduler.js:26-32 | One rescan for `specificCommand`, after which `CommandExists(x)` holds exactly when `x` existed or an entry registers it. When the argument is falsy the watcher is started: `ping` is false and one new interval is the only live one; otherwise the watcher state is unchanged. |
| Registry.EmptyValid | src/scheduler.js:13 | The empty table with no jobs satisfies the registry invariant. |
| Registry.ReloadValid | src/scheduler.js:148-195 | Storing a loaded module keeps the invariant: entries under their own names, every task's job live, no job stopped twice, no live job leaked. |
| Registry.EntryStepValid | src/scheduler.js:115-201 | One loop iteration keeps the registry invariant and never drops a name. |
| Registry.ScanValid | src/scheduler.js:111-202 | A whole rescan keeps the registry invariant. |
| Registry.SkippedEntryUnchanged | src/scheduler.js:118-122 | An entry whose stored version equals the stamp, or that is not the requested command, leaves the state unchanged and is counted present. |
| Registry.FailedEntryUnchanged | src/scheduler.js:115-146 | A failed stat, a failed import or a missing handler leaves the state unchanged, and the name is not pushed onto `updated`. |
| Registry.ReloadedEntryStored | src/scheduler.js:129-164 | An imported entry is present and stored under its name with its handler and `version = mtimeMs`. Its timeout is the module's if given, else 10000. No other entry changes. |
| Registry.ReloadedEntryRebound | src/scheduler.js:166-195 | Each old task's job goes from live to stopped exactly once, and jobs of other commands are untouched. One new task per expression is appended in declaration order, and none when a specific command was requested. |
| Registry.ScanLeavesUnlisted | src/scheduler.js:204-219 | A command whose name is not in the listing is kept exactly as it was. |
| Registry.ScanRegisters | src/scheduler.js:34-36 | After a rescan, a name exists if and only if it existed before or some entry registers it: a targeted directory with a readable stamp whose import succeeds with a handler. |
| Registry.ScanAppend | src/scheduler.js:111-202 | Scanning a listing `a + b` is scanning `a` then `b`, with the `updated` lists concatenated. |
| Registry.EntryStepAgain | src/scheduler.js:115-201 | An entry processed against any table that agrees on its name gives the same table back and the same presence. |
| Registry.RescanIsStable | src/scheduler.js:118-122 | With distinct names, a second rescan of the same listing changes nothing: no reload, no job restarted, same `updated` list. |
| Registry.RescanPrefixStable | src/scheduler.js:118-122 | With distinct names, rescanning any prefix of the listing after a full scan leaves the state unchanged. |
| Guard.EmptySound | src/scheduler.js:15-17 | The empty guard state satisfies `Sound`. |
| Guard.StartKeepsInv | src/scheduler.js:61-103 | `exec` keeps the guard invariant whatever the run id. |
| Guard.FireKeepsInv | src/scheduler.js:78-81 | A timer firing keeps the guard invariant. |
| Guard.SettleKeepsInv | src/scheduler.js:84-97 | A settlement keeps the guard invariant. |
| Guard.StartKeepsSound | src/scheduler.js:61-103 | With an id fresh for the command, `exec` keeps `Sound`: locked exactly while the last run is pending, and only it pending. |
| Guard.FireKeepsSound | src/scheduler.js:78-81 | A timer firing keeps `Sound`. |
| Guard.SettleKeepsSound | src/scheduler.js:84-97 | A settlement, current or stale, keeps `Sound`. |
| Guard.StartShape | src/scheduler.js:71-84 | An accepted call appends one pending run (armed exactly when the timeout is positive), sets the command's lock and last run, and leaves every earlier run as it was. |
| Guard.StartKeepsLockIff | src/scheduler.js:71-84 | After an accepted call, every command is locked exactly while its last run is unresolved. |
| Guard.FireShape | src/scheduler.js:78-81 | A timer firing changes only its own run (fired, and rejected if still pending) and the lock of its command; `#jobs`, the stored timers and the last runs are unchanged. |
| Guard.FireKeepsLockIff | src/scheduler.js:78-81 | After a timer firing, every command is locked exactly while its last run is unresolved. |
| Guard.SettleShape | src/scheduler.js:84-97 | A settlement changes no run's command or id, settles its own run, disarms at most the stored timer of its command and only when the run is current, and changes no other run's outcome. |
| Guard.CurrentIsLast | src/scheduler.js:85-86 | With distinct ids, the staleness test `#jobs[c] === jobId` holds exactly when the run is the command's last. |
| Guard.SettleKeepsLockIff | src/scheduler.js:84-97 | With distinct ids, a settlement unlocks its command exactly when it resolves the command's last run. |
| Guard.SettleKeepsLocksHeld | src/scheduler.js:84-97 | Whatever the ids, a lock that a settlement leaves held is over a run still unresolved. |
| Guard.FireDecides | src/scheduler.js:78-81 | An armed timer belongs to an unresolved run; firing rejects it with the timeout message and changes no other run's outcome. |
| Guard.SettleDecides | src/scheduler.js:84-97 | A settlement disarms its run's timer, resolves the run unless a timeout rejected it first, and changes no other run's outcome. |
| Guard.RefusedExecChangesNothing | src/scheduler.js:66-69 | For an undefined or a locked command, `exec` changes no state. It returns "not defined" (never settles) or the rejection `Command "c" locked`. |
| Guard.AcceptedExecLocks | src/scheduler.js:71-84 | An accepted `exec` sets `#jobs[c]` to the id and `#locks[c]` to true and appends a pending run. A timer is armed and stored if and only if the timeout is given and positive. |
| Guard.PendingRunLocksOut | src/scheduler.js:71-101 | Under `Sound`, while a run of `c` is unresolved, a new `exec(c)` is refused and changes nothing. |
| Guard.ResolutionReleasesLock | src/scheduler.js:78-97 | After the timer fires (without touching `#jobs`), or after the current run settles, the next `exec` of the command is accepted. |
| Guard.FirstEventDecides | src/scheduler.js:78-97 | A timer firing rejects with the timeout message. A settlement disarms the run's timer and resolves unless already rejected. Either way, no other run's outcome changes. |
| Guard.StaleSettleIsInert | src/scheduler.js:85-94 | Under `Sound`, a settlement of a run that is no longer the last one leaves the locks, ids, timers and every other run untouched. |
| Guard.ReusedIdBreaksExclusion | src/scheduler.js:63-64 | When the clock repeats an id, a stale settlement is taken for current. It unlocks the command while the newer run is pending, and a third call is accepted. |
| Scenarios.BuildTimeoutReleasesLock | src/scheduler.js:71-84 | `build` with timeout 1000, started at 0, is locked with an armed timer. The timer rejects the run with the timeout message and unlocks, so the trigger at 5000 starts a second run. |
| Scenarios.BuildEarlyCompletionIsCurrent | src/scheduler.js:84-97 | The first handler settles after its timer fired but before any new trigger: `#jobs.build` still holds its id, so the completion counts as current. The lock stays released, the promise stays rejected, and the next trigger starts. |
| Scenarios.BuildLateCompletionIsStale | src/scheduler.js:84-97 | The first handler settles after the second run started: the completion is stale, so the second run keeps its lock, its id and its pending promise, and the first stays rejected. |
| Scenarios.NeverSettlingHandlerIsFreedByItsTimer | test/commands/test1/index.js:1-8 | A never-settling handler with timeout 2000: a trigger before the timer fires is refused as locked, and one after it is accepted. |
| Scenarios.FirstScanOfThreeFolders | src/scheduler.js:111-201 | Folders `a` and `b` with handlers, and `x` without one: the first scan registers exactly `a` and `b` with the default timeout, and `x` is not pushed. |

## Left out

- Filesystem listing and `stat` (`readFiles`, `stat`): the listing, each entry's directory flag and its stat result are inputs. A rescan is modelled only for a listing that `readFiles` produced: if `readdir` or the `stat` of any one directory entry fails (src/utils.js:12, 21; a dangling symlink, say), `readFiles` rejects and no entry is processed at all, and under the interval tick that rejection is unhandled. Only a failed stat of a command's `index.js` (src/scheduler.js:116) is isolated to its own entry. The name `readFiles` derives from a folder (with any dotted suffix stripped) is taken as given. `Registry.RescanIsStable` assumes the names are distinct.
- The cache-busting dynamic `import`: its result (failure, or the module's `handler`, `schedule` and `timeout`) is an input.
- `parseInt` and `isNaN`: the parsed `timeout` is an `Option<int>`, with `None` standing for undefined or NaN. Hex prefixes, trailing text and fractional values are not modelled.
- `mtimeMs` is a float: it is modelled as an integer stamp, since only equality is used.
- node-cron: expressions are opaque strings and are not validated. A `cron.schedule` call that throws on an invalid expression, part way through binding, is not modelled. The firing times of jobs are not modelled. A live job may fire at any time (`FireCronJob`).
- `setTimeout`, `setInterval` and Promise scheduling: their callbacks are methods (`FireTimeout`, `Settle`, `FireCronJob`, `Tick`) called in any order their preconditions allow. The 5000 ms interval period and real time are not modelled.
- Concurrency of rescans: a rescan is modelled as atomic. Its `await` points could interleave with `exec` events or with an overlapping rescan started by the next tick.
- The handler itself and its `props` argument: a handler is an opaque reference. Running it is the pair of events "settles" and "timer fires". The handler's own result is not modelled because `.finally` ignores it. So is the unhandled rejection that the `.finally` chain produces when a handler rejects.
- The `instanceof Promise` test: it is false for a function, so the stored handler is always the async wrapper. `CommandExists` relies on this.
- Names inherited from `Object.prototype` (such as `toString`): `this.#commands[name]` finds them although they are not entries. The model's maps hold only real entries.
- `log` and the `debug` flag: logging only. The debug flag is kept as a field with no effect.
- `src/run.js` (argument parsing, directory check, exit codes) and `src/utils.js` are not part of this model.
- The `ping` flag is flipped and reset as in the source but nothing reads it.
- Scheduling.Scheduler.Exec: the guard invariants are not restated on the method, and `Exec`, `FireTimeout` and `Settle` keep only the part of the object invariant they can affect (`RunsDefined`), since they write no other field. They state their new state as `Guard.Start`, `Guard.Fire` and `Guard.Settle` of the old one, and `Guard.StartKeepsSound`, `Guard.FireKeepsSound` and `Guard.SettleKeepsSound` carry `Sound` across those functions.
