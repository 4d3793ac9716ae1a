/**
 * The execution guard of the scheduler (`exec`): a per-command lock, the
 * id of the command's current run and its timeout timer, written as pure
 * transition functions over a guard state, with the lemmas that state what
 * the guard promises.
 *
 * The Promise that `exec` returns is made explicit. Each accepted call is
 * a `Run` (the closure over the command name, the run id and the
 * promise's resolve/reject); the runtime then delivers two kinds of event
 * in any order: the run's timer fires (`Fire`), or the handler's promise
 * settles and its `.finally` callback runs (`Settle`). Whichever of the two
 * comes first decides the run's outcome.
 */
module Guard {
  import opened Common

  /** The state of the timer a run armed, if any. */
  datatype TimerState = NoTimer | Armed | Cleared | Fired

  /** The state of the promise `exec` returned for a run. */
  datatype Outcome = Pending | Rejected(reason: string) | Resolved

  /** One accepted `exec` call. */
  datatype Run = Run(command: string, jobId: int, timer: TimerState, settled: bool, outcome: Outcome)

  /**
   * The guard's maps, keyed by command name: `locks`, `jobs` (the id of
   * the last run started) and `timeouts` (the run whose timer handle is
   * stored, standing for the handle itself); every run so far; and `last`,
   * the index of each command's last run (bookkeeping of the model, not a
   * field of the source).
   */
  datatype GuardState = GuardState(
    locks: map<string, bool>, jobs: map<string, int>, timeouts: map<string, nat>,
    runs: seq<Run>, last: map<string, nat>)

  /**
   * What a call of `exec` does at once: nothing at all for an undefined
   * command (its promise never settles), a rejection when locked, or a run.
   */
  datatype ExecStart = NotDefined | LockedOut(reason: string) | Started(run: nat)

  /** The initial guard state: empty maps and no run. */
  const Empty: GuardState := GuardState(map[], map[], map[], [], map[])

  /** The rejection reason of a call on a locked command. */
  function LockedReason(command: string): string
  {
    "Command \"" + command + "\" locked"
  }

  /** The rejection reason of a run whose timer fired first. */
  function TimeoutReason(command: string): string
  {
    "Command \"" + command + "\" rejected by timeout"
  }

  /** `#locks[command]` is truthy. */
  predicate IsLocked(g: GuardState, command: string)
  {
    command in g.locks && g.locks[command]
  }

  /** `timeout !== undefined && timeout > 0`: whether a run arms a timer. */
  predicate ArmsTimer(timeout: Option<int>)
  {
    timeout.Some? && timeout.value > 0
  }

  /**
   * A call of `exec(command, timeout)` stamped `jobId`; `defined` says
   * whether `#commands[command]` is set.
   */
  function Start(g: GuardState, defined: bool, command: string, timeout: Option<int>, jobId: int): (GuardState, ExecStart)
  {
    if !defined then (g, NotDefined)
    else if IsLocked(g, command) then (g, LockedOut(LockedReason(command)))
    else
      var r := |g.runs|;
      var timer := if ArmsTimer(timeout) then Armed else NoTimer;
      var g' := GuardState(
        g.locks[command := true],
        g.jobs[command := jobId],
        if ArmsTimer(timeout) then g.timeouts[command := r] else g.timeouts,
        g.runs + [Run(command, jobId, timer, false, Pending)],
        g.last[command := r]);
      (g', Started(r))
  }

  /** The timer of run `r` fires: the lock is released and the run's promise rejected. */
  function Fire(g: GuardState, r: nat): GuardState
    requires r < |g.runs| && g.runs[r].timer == Armed
  {
    var run := g.runs[r];
    var outcome := if run.outcome == Pending then Rejected(TimeoutReason(run.command)) else run.outcome;
    GuardState(g.locks[run.command := false], g.jobs, g.timeouts, g.runs[r := run.(timer := Fired, outcome := outcome)], g.last)
  }

  /** `clearTimeout` on the handle stored for run `t`: only an armed timer is affected. */
  function ClearTimer(runs: seq<Run>, t: nat): seq<Run>
  {
    if t < |runs| && runs[t].timer == Armed then runs[t := runs[t].(timer := Cleared)] else runs
  }

  /**
   * The handler of run `r` settles (fulfilled or rejected alike). If the
   * run's id is still the command's current id, the stored timer is cleared
   * and the lock released; otherwise the completion is stale and only
   * logged. The run's promise resolves with `true` unless already rejected.
   */
  function Settle(g: GuardState, r: nat): GuardState
    requires r < |g.runs| && !g.runs[r].settled
  {
    var c := g.runs[r].command;
    var current := c in g.jobs && g.jobs[c] == g.runs[r].jobId;
    var runs := if current && c in g.timeouts then ClearTimer(g.runs, g.timeouts[c]) else g.runs;
    var run := runs[r];
    var outcome := if run.outcome == Pending then Resolved else run.outcome;
    GuardState(if current then g.locks[c := false] else g.locks, g.jobs, g.timeouts,
               runs[r := run.(settled := true, outcome := outcome)], g.last)
  }

  /** The maps are keyed by the same commands; only they can have a stored timer. */
  ghost predicate KeysAgree(g: GuardState)
  {
    g.locks.Keys == g.jobs.Keys && g.last.Keys == g.jobs.Keys && g.timeouts.Keys <= g.jobs.Keys
  }

  /** `last` points at each command's last run, whose id is `jobs[c]`. */
  ghost predicate LastRuns(g: GuardState)
  {
    && (forall c :: c in g.last ==>
          g.last[c] < |g.runs| && g.runs[g.last[c]].command == c
          && c in g.jobs && g.runs[g.last[c]].jobId == g.jobs[c])
    && (forall r :: 0 <= r < |g.runs| ==> g.runs[r].command in g.last && r <= g.last[g.runs[r].command])
  }

  /**
   * A stored timer handle belongs to a run of its command; an armed timer
   * belongs to the last run of a locked command and is the stored handle.
   */
  ghost predicate TimersTracked(g: GuardState)
  {
    && (forall c :: c in g.timeouts ==>
          g.timeouts[c] < |g.runs| && g.runs[g.timeouts[c]].command == c && g.runs[g.timeouts[c]].timer != NoTimer)
    && (forall r :: 0 <= r < |g.runs| && g.runs[r].timer == Armed ==>
          g.runs[r].command in g.last && g.last[g.runs[r].command] == r && IsLocked(g, g.runs[r].command)
          && g.runs[r].command in g.timeouts && g.timeouts[g.runs[r].command] == r)
  }

  /** A lock is held only while the command's last run is unresolved. */
  ghost predicate LocksHeld(g: GuardState)
  {
    forall c :: IsLocked(g, c) ==> c in g.last && g.last[c] < |g.runs| && g.runs[g.last[c]].outcome == Pending
  }

  /**
   * A run's outcome is undecided exactly while neither its timer fired nor
   * its handler settled; a rejection comes only from its timer, a
   * resolution only from its settlement.
   */
  predicate OutcomeAgrees(run: Run)
  {
    && (run.outcome == Pending <==> !run.settled && run.timer != Fired)
    && (run.outcome.Rejected? ==> run.timer == Fired && run.outcome.reason == TimeoutReason(run.command))
    && (run.outcome.Resolved? ==> run.settled)
  }

  /** Every run's outcome agrees with the events it received. */
  ghost predicate OutcomesAgree(g: GuardState)
  {
    forall r :: 0 <= r < |g.runs| ==> OutcomeAgrees(g.runs[r])
  }

  /** The guard invariant; it holds whatever run ids the clock produces. */
  ghost predicate Inv(g: GuardState)
  {
    KeysAgree(g) && LastRuns(g) && TimersTracked(g) && LocksHeld(g) && OutcomesAgree(g)
  }

  /** No two runs of the same command share an id. */
  ghost predicate UniqueIds(g: GuardState)
  {
    forall r1, r2 :: 0 <= r1 < r2 < |g.runs| && g.runs[r1].command == g.runs[r2].command ==>
      g.runs[r1].jobId != g.runs[r2].jobId
  }

  /** `jobId` differs from the id of every earlier run of `command`. */
  ghost predicate FreshId(g: GuardState, command: string, jobId: int)
  {
    forall r :: 0 <= r < |g.runs| && g.runs[r].command == command ==> g.runs[r].jobId != jobId
  }

  /**
   * The guard's promise when run ids are unique: a command is locked
   * exactly while its last run is unresolved, and no earlier run of it is
   * unresolved.
   */
  ghost predicate Sound(g: GuardState)
  {
    Inv(g) && UniqueIds(g) && LockIffPending(g) && PendingIsLast(g)
  }

  /** A command is locked exactly while its last run is unresolved. */
  ghost predicate LockIffPending(g: GuardState)
    requires KeysAgree(g) && LastRuns(g)
  {
    forall c :: c in g.locks ==> (g.locks[c] <==> g.runs[g.last[c]].outcome == Pending)
  }

  /** Only the last run of a command can be unresolved. */
  ghost predicate PendingIsLast(g: GuardState)
    requires LastRuns(g)
  {
    forall r :: 0 <= r < |g.runs| && g.runs[r].outcome == Pending ==> g.last[g.runs[r].command] == r
  }

  /** The initial state is sound. */
  lemma EmptySound()
    ensures Sound(Empty)
  {
  }

  /** A call of `exec` keeps the invariant. */
  lemma StartKeepsInv(g: GuardState, defined: bool, command: string, timeout: Option<int>, jobId: int)
    requires Inv(g)
    ensures Inv(Start(g, defined, command, timeout, jobId).0)
  {
    if defined && !IsLocked(g, command) {
      StartKeepsMaps(g, command, timeout, jobId);
      StartKeepsTimers(g, command, timeout, jobId);
    }
  }

  /** An accepted call keeps the keys, the last runs, the held locks and the outcomes. */
  lemma StartKeepsMaps(g: GuardState, command: string, timeout: Option<int>, jobId: int)
    requires Inv(g) && !IsLocked(g, command)
    ensures var g' := Start(g, true, command, timeout, jobId).0;
      KeysAgree(g') && LastRuns(g') && LocksHeld(g') && OutcomesAgree(g')
  {
    StartKeepsLastRuns(g, command, timeout, jobId);
    StartKeepsLocksHeld(g, command, timeout, jobId);
    StartKeepsOutcomes(g, command, timeout, jobId);
  }

  /** The new run is undecided, and no earlier run changes. */
  lemma StartKeepsOutcomes(g: GuardState, command: string, timeout: Option<int>, jobId: int)
    requires OutcomesAgree(g) && !IsLocked(g, command)
    ensures OutcomesAgree(Start(g, true, command, timeout, jobId).0)
  {
    var g' := Start(g, true, command, timeout, jobId).0;
    StartShape(g, command, timeout, jobId);
    forall r | 0 <= r < |g'.runs|
      ensures OutcomeAgrees(g'.runs[r])
    {
      if r < |g.runs| {
        assert g'.runs[r] == g.runs[r];
      }
    }
  }

  /** The new run is its command's last; every other command's last run is unchanged. */
  lemma StartKeepsLastRuns(g: GuardState, command: string, timeout: Option<int>, jobId: int)
    requires KeysAgree(g) && LastRuns(g) && !IsLocked(g, command)
    ensures LastRuns(Start(g, true, command, timeout, jobId).0)
  {
    var g' := Start(g, true, command, timeout, jobId).0;
    StartShape(g, command, timeout, jobId);
    forall c | c in g'.last
      ensures g'.last[c] < |g'.runs| && g'.runs[g'.last[c]].command == c
      ensures c in g'.jobs && g'.runs[g'.last[c]].jobId == g'.jobs[c]
    {
      if c != command {
        assert g'.runs[g.last[c]] == g.runs[g.last[c]];
      }
    }
    forall r | 0 <= r < |g'.runs|
      ensures g'.runs[r].command in g'.last && r <= g'.last[g'.runs[r].command]
    {
      if r < |g.runs| {
        assert g'.runs[r] == g.runs[r];
      }
    }
  }

  /** The new lock is held over the new, unresolved run; the other locks keep their runs. */
  lemma StartKeepsLocksHeld(g: GuardState, command: string, timeout: Option<int>, jobId: int)
    requires KeysAgree(g) && LastRuns(g) && LocksHeld(g) && !IsLocked(g, command)
    ensures LocksHeld(Start(g, true, command, timeout, jobId).0)
  {
    var g' := Start(g, true, command, timeout, jobId).0;
    StartShape(g, command, timeout, jobId);
    forall c | IsLocked(g', c)
      ensures c in g'.last && g'.last[c] < |g'.runs| && g'.runs[g'.last[c]].outcome == Pending
    {
      if c != command {
        assert IsLocked(g, c);
        assert g'.runs[g.last[c]] == g.runs[g.last[c]];
      }
    }
  }

  /** An accepted call arms at most its own timer, which is then the stored one. */
  lemma StartKeepsTimers(g: GuardState, command: string, timeout: Option<int>, jobId: int)
    requires TimersTracked(g) && !IsLocked(g, command)
    ensures TimersTracked(Start(g, true, command, timeout, jobId).0)
  {
    var g' := Start(g, true, command, timeout, jobId).0;
    var n := |g.runs|;
    forall c | c in g'.timeouts
      ensures g'.timeouts[c] < |g'.runs| && g'.runs[g'.timeouts[c]].command == c && g'.runs[g'.timeouts[c]].timer != NoTimer
    {
      if !(c == command && ArmsTimer(timeout)) {
        assert g'.runs[g.timeouts[c]] == g.runs[g.timeouts[c]];
      }
    }
    forall r | 0 <= r < |g'.runs| && g'.runs[r].timer == Armed
      ensures g'.runs[r].command in g'.last && g'.last[g'.runs[r].command] == r && IsLocked(g', g'.runs[r].command)
      ensures g'.runs[r].command in g'.timeouts && g'.timeouts[g'.runs[r].command] == r
    {
      if r < n {
        assert g'.runs[r] == g.runs[r];
        assert IsLocked(g, g.runs[r].command);
      }
    }
  }
  /** A timer firing changes only run `r` and the lock of its command. */
  lemma FireShape(g: GuardState, r: nat)
    requires r < |g.runs| && g.runs[r].timer == Armed
    ensures var g' := Fire(g, r);
      var run := g.runs[r];
      && |g'.runs| == |g.runs|
      && (forall q :: 0 <= q < |g.runs| && q != r ==> g'.runs[q] == g.runs[q])
      && g'.runs[r] == run.(timer := Fired, outcome := if run.outcome == Pending then Rejected(TimeoutReason(run.command)) else run.outcome)
      && g'.locks == g.locks[run.command := false]
      && g'.jobs == g.jobs && g'.timeouts == g.timeouts && g'.last == g.last
  {
  }

  /** A timer firing keeps the invariant. */
  lemma FireKeepsInv(g: GuardState, r: nat)
    requires Inv(g) && r < |g.runs| && g.runs[r].timer == Armed
    ensures Inv(Fire(g, r))
  {
    FireKeepsMaps(g, r);
    FireKeepsTimers(g, r);
    FireKeepsOutcomes(g, r);
  }

  /** A timer firing keeps the keys and the last runs, and leaves no lock over a decided run. */
  lemma FireKeepsMaps(g: GuardState, r: nat)
    requires KeysAgree(g) && LastRuns(g) && LocksHeld(g) && r < |g.runs| && g.runs[r].timer == Armed
    ensures KeysAgree(Fire(g, r)) && LastRuns(Fire(g, r)) && LocksHeld(Fire(g, r))
  {
    var g' := Fire(g, r);
    FireShape(g, r);
    forall c | c in g'.last
      ensures g'.last[c] < |g'.runs| && g'.runs[g'.last[c]].command == c
      ensures c in g'.jobs && g'.runs[g'.last[c]].jobId == g'.jobs[c]
    {
    }
    forall q | 0 <= q < |g'.runs|
      ensures g'.runs[q].command in g'.last && q <= g'.last[g'.runs[q].command]
    {
      assert g'.runs[q].command == g.runs[q].command;
    }
    forall c | IsLocked(g', c)
      ensures c in g'.last && g'.last[c] < |g'.runs| && g'.runs[g'.last[c]].outcome == Pending
    {
      assert IsLocked(g, c) && c != g.runs[r].command;
      assert g'.runs[g.last[c]] == g.runs[g.last[c]];
    }
  }

  /** A timer firing disarms only its own timer. */
  lemma FireKeepsTimers(g: GuardState, r: nat)
    requires TimersTracked(g) && r < |g.runs| && g.runs[r].timer == Armed
    ensures TimersTracked(Fire(g, r))
  {
    var g' := Fire(g, r);
    FireShape(g, r);
    forall c | c in g'.timeouts
      ensures g'.timeouts[c] < |g'.runs| && g'.runs[g'.timeouts[c]].command == c && g'.runs[g'.timeouts[c]].timer != NoTimer
    {
    }
    forall q | 0 <= q < |g'.runs| && g'.runs[q].timer == Armed
      ensures g'.runs[q].command in g'.last && g'.last[g'.runs[q].command] == q && IsLocked(g', g'.runs[q].command)
      ensures g'.runs[q].command in g'.timeouts && g'.timeouts[g'.runs[q].command] == q
    {
      assert g'.runs[q] == g.runs[q];
      assert g.last[g.runs[r].command] == r;
    }
  }

  /** A timer firing decides its run's outcome, if still undecided, as the timeout rejection. */
  lemma FireKeepsOutcomes(g: GuardState, r: nat)
    requires OutcomesAgree(g) && r < |g.runs| && g.runs[r].timer == Armed
    ensures OutcomesAgree(Fire(g, r))
  {
    var g' := Fire(g, r);
    FireShape(g, r);
    forall q | 0 <= q < |g'.runs|
      ensures OutcomeAgrees(g'.runs[q])
    {
      assert OutcomeAgrees(g.runs[q]);
    }
  }

  /**
   * A settlement changes no run's command or id; it settles run `r` and
   * at most clears the stored timer of the command, when the run is current.
   */
  lemma SettleShape(g: GuardState, r: nat)
    requires r < |g.runs| && !g.runs[r].settled
    ensures var g' := Settle(g, r);
      var c := g.runs[r].command;
      var current := c in g.jobs && g.jobs[c] == g.runs[r].jobId;
      && |g'.runs| == |g.runs|
      && g'.runs[r].settled
      && (forall q :: 0 <= q < |g.runs| ==>
            && g'.runs[q].command == g.runs[q].command
            && g'.runs[q].jobId == g.runs[q].jobId
            && g'.runs[q].timer ==
                 (if current && c in g.timeouts && q == g.timeouts[c] && g.runs[q].timer == Armed
                  then Cleared else g.runs[q].timer)
            && (q != r ==> g'.runs[q].settled == g.runs[q].settled && g'.runs[q].outcome == g.runs[q].outcome))
  {
  }

  /** A settlement keeps every command's last run and its id. */
  lemma SettleKeepsLastRuns(g: GuardState, r: nat)
    requires LastRuns(g) && r < |g.runs| && !g.runs[r].settled
    ensures LastRuns(Settle(g, r))
  {
    SettleShape(g, r);
  }

  /** A settlement leaves armed only timers that were armed, each still the stored one. */
  lemma SettleKeepsTimers(g: GuardState, r: nat)
    requires TimersTracked(g) && r < |g.runs| && !g.runs[r].settled
    ensures TimersTracked(Settle(g, r))
  {
    SettleShape(g, r);
    var g' := Settle(g, r);
    var c := g.runs[r].command;
    forall q | 0 <= q < |g'.runs| && g'.runs[q].timer == Armed
      ensures g'.runs[q].command in g'.last && g'.last[g'.runs[q].command] == q && IsLocked(g', g'.runs[q].command)
      ensures g'.runs[q].command in g'.timeouts && g'.timeouts[g'.runs[q].command] == q
    {
      assert g.runs[q].timer == Armed;
    }
  }

  /** A settlement keeps the invariant. */
  lemma SettleKeepsInv(g: GuardState, r: nat)
    requires Inv(g) && r < |g.runs| && !g.runs[r].settled
    ensures Inv(Settle(g, r))
  {
    SettleKeepsLastRuns(g, r);
    SettleKeepsTimers(g, r);
    SettleKeepsLocks(g, r);
  }

  /** A settlement keeps the keys, leaves no lock over a decided run, and decides its run. */
  lemma SettleKeepsLocks(g: GuardState, r: nat)
    requires Inv(g) && r < |g.runs| && !g.runs[r].settled
    ensures KeysAgree(Settle(g, r)) && LocksHeld(Settle(g, r)) && OutcomesAgree(Settle(g, r))
  {
    SettleKeepsLocksHeld(g, r);
    SettleKeepsOutcomes(g, r);
  }

  /** A lock that stays held is over a run the settlement did not decide. */
  lemma SettleKeepsLocksHeld(g: GuardState, r: nat)
    requires KeysAgree(g) && LastRuns(g) && LocksHeld(g) && r < |g.runs| && !g.runs[r].settled
    ensures KeysAgree(Settle(g, r)) && LocksHeld(Settle(g, r))
  {
    SettleShape(g, r);
    var g' := Settle(g, r);
    forall d | IsLocked(g', d)
      ensures d in g'.last && g'.last[d] < |g'.runs| && g'.runs[g'.last[d]].outcome == Pending
    {
      assert IsLocked(g, d);
    }
  }

  /** A settlement resolves its run unless rejected, and may only disarm another timer. */
  lemma SettleKeepsOutcomes(g: GuardState, r: nat)
    requires OutcomesAgree(g) && r < |g.runs| && !g.runs[r].settled
    ensures OutcomesAgree(Settle(g, r))
  {
    SettleShape(g, r);
    var g' := Settle(g, r);
    forall q | 0 <= q < |g'.runs|
      ensures OutcomeAgrees(g'.runs[q])
    {
      assert OutcomeAgrees(g.runs[q]);
    }
  }

  /** An accepted call appends its run and leaves every earlier run as it was. */
  lemma StartShape(g: GuardState, command: string, timeout: Option<int>, jobId: int)
    requires !IsLocked(g, command)
    ensures var g' := Start(g, true, command, timeout, jobId).0;
      && |g'.runs| == |g.runs| + 1
      && (forall q :: 0 <= q < |g.runs| ==> g'.runs[q] == g.runs[q])
      && g'.runs[|g.runs|] == Run(command, jobId, if ArmsTimer(timeout) then Armed else NoTimer, false, Pending)
      && g'.locks == g.locks[command := true]
      && g'.last == g.last[command := |g.runs|]
  {
  }

  /** A fresh id keeps the run ids of each command unique. */
  lemma StartKeepsUniqueIds(g: GuardState, command: string, timeout: Option<int>, jobId: int)
    requires !IsLocked(g, command) && UniqueIds(g) && FreshId(g, command, jobId)
    ensures UniqueIds(Start(g, true, command, timeout, jobId).0)
  {
    var g' := Start(g, true, command, timeout, jobId).0;
    StartShape(g, command, timeout, jobId);
    forall r1, r2 | 0 <= r1 < r2 < |g'.runs| && g'.runs[r1].command == g'.runs[r2].command
      ensures g'.runs[r1].jobId != g'.runs[r2].jobId
    {
      assert g'.runs[r1] == g.runs[r1];
      if r2 < |g.runs| {
        assert g'.runs[r2] == g.runs[r2];
      }
    }
  }

  /**
   * An accepted call locks its command over its new, unresolved run; the
   * lock of every other command still follows its last run.
   */
  lemma StartKeepsLockIff(g: GuardState, command: string, timeout: Option<int>, jobId: int)
    requires !IsLocked(g, command) && KeysAgree(g) && LastRuns(g) && LockIffPending(g)
    requires var g' := Start(g, true, command, timeout, jobId).0; KeysAgree(g') && LastRuns(g')
    ensures LockIffPending(Start(g, true, command, timeout, jobId).0)
  {
    var g' := Start(g, true, command, timeout, jobId).0;
    StartShape(g, command, timeout, jobId);
    forall d | d in g'.locks
      ensures g'.locks[d] <==> g'.runs[g'.last[d]].outcome == Pending
    {
      if d != command {
        assert g'.runs[g.last[d]] == g.runs[g.last[d]];
      }
    }
  }

  /** An unlocked command has no unresolved run, so the new run is its only one. */
  lemma StartKeepsPendingLast(g: GuardState, command: string, timeout: Option<int>, jobId: int)
    requires !IsLocked(g, command) && KeysAgree(g) && LastRuns(g) && LockIffPending(g) && PendingIsLast(g)
    requires LastRuns(Start(g, true, command, timeout, jobId).0)
    ensures PendingIsLast(Start(g, true, command, timeout, jobId).0)
  {
    var g' := Start(g, true, command, timeout, jobId).0;
    StartShape(g, command, timeout, jobId);
    forall q | 0 <= q < |g'.runs| && g'.runs[q].outcome == Pending
      ensures g'.last[g'.runs[q].command] == q
    {
      if q < |g.runs| {
        assert g'.runs[q] == g.runs[q];
        assert g.runs[q].command != command;
      }
    }
  }

  /** A call with an id fresh for its command keeps the guard sound. */
  lemma StartKeepsSound(g: GuardState, defined: bool, command: string, timeout: Option<int>, jobId: int)
    requires Sound(g) && FreshId(g, command, jobId)
    ensures Sound(Start(g, defined, command, timeout, jobId).0)
  {
    StartKeepsInv(g, defined, command, timeout, jobId);
    if defined && !IsLocked(g, command) {
      StartKeepsUniqueIds(g, command, timeout, jobId);
      StartKeepsLockIff(g, command, timeout, jobId);
      StartKeepsPendingLast(g, command, timeout, jobId);
    }
  }

  /** A timer firing rejects its run and unlocks its command, which it owns. */
  lemma FireKeepsLockIff(g: GuardState, r: nat)
    requires KeysAgree(g) && LastRuns(g) && TimersTracked(g) && LockIffPending(g) && r < |g.runs| && g.runs[r].timer == Armed
    requires KeysAgree(Fire(g, r)) && LastRuns(Fire(g, r))
    ensures LockIffPending(Fire(g, r))
  {
    var g' := Fire(g, r);
    var c := g.runs[r].command;
    FireShape(g, r);
    forall d | d in g'.locks
      ensures g'.locks[d] <==> g'.runs[g'.last[d]].outcome == Pending
    {
      if d != c {
        assert g'.runs[g.last[d]] == g.runs[g.last[d]];
      }
    }
  }

  /** A timer firing only decides a run, so no new run becomes unresolved. */
  lemma FireKeepsPendingLast(g: GuardState, r: nat)
    requires LastRuns(g) && PendingIsLast(g) && r < |g.runs| && g.runs[r].timer == Armed
    requires LastRuns(Fire(g, r))
    ensures PendingIsLast(Fire(g, r))
  {
    var g' := Fire(g, r);
    FireShape(g, r);
    forall q | 0 <= q < |g'.runs| && g'.runs[q].outcome == Pending
      ensures g'.last[g'.runs[q].command] == q
    {
      assert g.runs[q].outcome == Pending;
    }
  }

  /** A timer firing changes no run's command or id. */
  lemma FireKeepsUniqueIds(g: GuardState, r: nat)
    requires UniqueIds(g) && r < |g.runs| && g.runs[r].timer == Armed
    ensures UniqueIds(Fire(g, r))
  {
    FireShape(g, r);
    var g' := Fire(g, r);
    forall r1, r2 | 0 <= r1 < r2 < |g'.runs| && g'.runs[r1].command == g'.runs[r2].command
      ensures g'.runs[r1].jobId != g'.runs[r2].jobId
    {
      assert g'.runs[r1].jobId == g.runs[r1].jobId && g'.runs[r2].jobId == g.runs[r2].jobId;
    }
  }

  /** A timer firing keeps the guard sound. */
  lemma FireKeepsSound(g: GuardState, r: nat)
    requires Sound(g) && r < |g.runs| && g.runs[r].timer == Armed
    ensures Sound(Fire(g, r))
  {
    FireKeepsInv(g, r);
    FireKeepsUniqueIds(g, r);
    FireKeepsLockIff(g, r);
    FireKeepsPendingLast(g, r);
  }

  /** With unique ids, a run is its command's current run exactly when it is the command's last. */
  lemma CurrentIsLast(g: GuardState, r: nat)
    requires Inv(g) && UniqueIds(g) && r < |g.runs|
    ensures var c := g.runs[r].command;
      c in g.jobs && g.jobs[c] == g.runs[r].jobId <==> g.last[c] == r
  {
    var c := g.runs[r].command;
    if c in g.jobs && g.jobs[c] == g.runs[r].jobId && g.last[c] != r {
      assert false;
    }
  }

  /** A settlement unlocks its command exactly when it resolves the command's last run. */
  lemma SettleKeepsLockIff(g: GuardState, r: nat)
    requires Inv(g) && UniqueIds(g) && LockIffPending(g) && r < |g.runs| && !g.runs[r].settled
    requires KeysAgree(Settle(g, r)) && LastRuns(Settle(g, r))
    ensures LockIffPending(Settle(g, r))
  {
    SettleShape(g, r);
    CurrentIsLast(g, r);
    var g' := Settle(g, r);
    var c := g.runs[r].command;
    var current := c in g.jobs && g.jobs[c] == g.runs[r].jobId;
    forall d | d in g'.locks
      ensures g'.locks[d] <==> g'.runs[g'.last[d]].outcome == Pending
    {
      if d != c || !current {
        assert g'.runs[g.last[d]].outcome == g.runs[g.last[d]].outcome;
      }
    }
  }

  /** A settlement only decides a run, so no new run becomes unresolved. */
  lemma SettleKeepsPendingLast(g: GuardState, r: nat)
    requires LastRuns(g) && PendingIsLast(g) && r < |g.runs| && !g.runs[r].settled
    requires LastRuns(Settle(g, r))
    ensures PendingIsLast(Settle(g, r))
  {
    SettleShape(g, r);
    var g' := Settle(g, r);
    forall q | 0 <= q < |g'.runs| && g'.runs[q].outcome == Pending
      ensures g'.last[g'.runs[q].command] == q
    {
      assert g.runs[q].outcome == Pending;
    }
  }

  /** A settlement changes no run's command or id. */
  lemma SettleKeepsUniqueIds(g: GuardState, r: nat)
    requires UniqueIds(g) && r < |g.runs| && !g.runs[r].settled
    ensures UniqueIds(Settle(g, r))
  {
    SettleShape(g, r);
    var g' := Settle(g, r);
    forall r1, r2 | 0 <= r1 < r2 < |g'.runs| && g'.runs[r1].command == g'.runs[r2].command
      ensures g'.runs[r1].jobId != g'.runs[r2].jobId
    {
      assert g'.runs[r1].jobId == g.runs[r1].jobId && g'.runs[r2].jobId == g.runs[r2].jobId;
    }
  }

  /** A settlement keeps the guard sound. */
  lemma SettleKeepsSound(g: GuardState, r: nat)
    requires Sound(g) && r < |g.runs| && !g.runs[r].settled
    ensures Sound(Settle(g, r))
  {
    SettleKeepsInv(g, r);
    SettleKeepsUniqueIds(g, r);
    SettleKeepsLockIff(g, r);
    SettleKeepsPendingLast(g, r);
  }

  /**
   * `exec` on an undefined command changes nothing and never settles; on a
   * locked command it rejects with the lock reason and changes nothing. In
   * both cases no run is created: the handler is not called.
   */
  lemma RefusedExecChangesNothing(g: GuardState, defined: bool, command: string, timeout: Option<int>, jobId: int)
    requires !defined || IsLocked(g, command)
    ensures Start(g, defined, command, timeout, jobId) ==
      (g, if !defined then NotDefined else LockedOut("Command \"" + command + "\" locked"))
  {
  }

  /**
   * An accepted `exec` records its id and takes the lock before the
   * handler runs, and arms a timer exactly when the timeout is positive;
   * no other command's state changes.
   */
  lemma AcceptedExecLocks(g: GuardState, command: string, timeout: Option<int>, jobId: int)
    requires !IsLocked(g, command)
    ensures var (g', res) := Start(g, true, command, timeout, jobId);
      && res == Started(|g.runs|)
      && g'.jobs == g.jobs[command := jobId]
      && g'.locks == g.locks[command := true]
      && g'.runs == g.runs + [g'.runs[|g.runs|]]
      && g'.runs[|g.runs|].command == command && g'.runs[|g.runs|].jobId == jobId
      && g'.runs[|g.runs|].outcome == Pending
      && (g'.runs[|g.runs|].timer == Armed <==> timeout.Some? && timeout.value > 0)
      && g'.timeouts == (if timeout.Some? && timeout.value > 0 then g.timeouts[command := |g.runs|] else g.timeouts)
  {
  }

  /**
   * Mutual exclusion: while any run of a command is unresolved, a further
   * `exec` of it is rejected as locked and starts no handler.
   */
  lemma PendingRunLocksOut(g: GuardState, q: nat, timeout: Option<int>, jobId: int)
    requires Sound(g) && q < |g.runs| && g.runs[q].outcome == Pending
    ensures Start(g, true, g.runs[q].command, timeout, jobId) ==
      (g, LockedOut(LockedReason(g.runs[q].command)))
  {
    var c := g.runs[q].command;
    assert g.last[c] == q;
    assert c in g.locks;
  }

  /**
   * Once a run is resolved by its timeout, or its current settlement, the
   * next `exec` of the command is accepted at once. The timeout leaves
   * `jobs` as it was.
   */
  lemma ResolutionReleasesLock(g: GuardState, r: nat, timeout: Option<int>, jobId: int)
    requires LastRuns(g) && r < |g.runs|
    ensures g.runs[r].timer == Armed ==>
      Fire(g, r).jobs == g.jobs
      && Start(Fire(g, r), true, g.runs[r].command, timeout, jobId).1 == Started(|g.runs|)
    ensures !g.runs[r].settled && g.last[g.runs[r].command] == r ==>
      Start(Settle(g, r), true, g.runs[r].command, timeout, jobId).1 == Started(|g.runs|)
  {
    if g.runs[r].timer == Armed {
      FireShape(g, r);
    }
    if !g.runs[r].settled {
      SettleShape(g, r);
    }
  }

  /**
   * The first of the two events decides a run's outcome for good: the
   * timer firing rejects an unresolved run with the timeout reason, and a
   * settlement disarms the run's timer, resolves the run if it is still
   * unresolved and otherwise leaves the rejection in place. Neither event
   * changes the outcome of any other run.
   */
  lemma FirstEventDecides(g: GuardState, r: nat)
    requires Inv(g) && r < |g.runs|
    ensures g.runs[r].timer == Armed ==>
      && Fire(g, r).runs[r].outcome == Rejected(TimeoutReason(g.runs[r].command))
      && (forall q :: 0 <= q < |g.runs| && q != r ==> Fire(g, r).runs[q].outcome == g.runs[q].outcome)
    ensures !g.runs[r].settled ==>
      && Settle(g, r).runs[r].timer != Armed
      && Settle(g, r).runs[r].outcome == (if g.runs[r].outcome == Pending then Resolved else g.runs[r].outcome)
      && (forall q :: 0 <= q < |g.runs| && q != r ==> Settle(g, r).runs[q].outcome == g.runs[q].outcome)
  {
    if g.runs[r].timer == Armed {
      FireDecides(g, r);
    }
    if !g.runs[r].settled {
      SettleDecides(g, r);
    }
  }

  /** An armed timer belongs to an unresolved run, which its firing rejects. */
  lemma FireDecides(g: GuardState, r: nat)
    requires Inv(g) && r < |g.runs| && g.runs[r].timer == Armed
    ensures Fire(g, r).runs[r].outcome == Rejected(TimeoutReason(g.runs[r].command))
    ensures forall q :: 0 <= q < |g.runs| && q != r ==> Fire(g, r).runs[q].outcome == g.runs[q].outcome
  {
    FireShape(g, r);
    assert OutcomeAgrees(g.runs[r]);
  }

  /** A settlement disarms its run's timer and keeps a rejection that came first. */
  lemma SettleDecides(g: GuardState, r: nat)
    requires LastRuns(g) && TimersTracked(g) && r < |g.runs| && !g.runs[r].settled
    ensures Settle(g, r).runs[r].timer != Armed
    ensures Settle(g, r).runs[r].outcome == (if g.runs[r].outcome == Pending then Resolved else g.runs[r].outcome)
    ensures forall q :: 0 <= q < |g.runs| && q != r ==> Settle(g, r).runs[q].outcome == g.runs[q].outcome
  {
    SettleShape(g, r);
  }

  /**
   * With unique run ids, a stale completion (of a run that is not the
   * command's last) changes no lock, no id, no stored timer and no other
   * run: it only resolves its own promise.
   */
  lemma StaleSettleIsInert(g: GuardState, r: nat)
    requires Sound(g) && r < |g.runs| && !g.runs[r].settled
    requires g.last[g.runs[r].command] != r
    ensures var g' := Settle(g, r);
      && g'.locks == g.locks && g'.jobs == g.jobs && g'.timeouts == g.timeouts
      && (forall q :: 0 <= q < |g.runs| && q != r ==> g'.runs[q] == g.runs[q])
  {
    CurrentIsLast(g, r);
  }

  /**
   * Run ids are wall-clock milliseconds. If the clock yields the same id
   * twice, a timed-out run's late completion passes the staleness check,
   * releases the lock of the newer run that is still unresolved, and lets
   * a third run start beside it.
   */
  lemma ReusedIdBreaksExclusion()
    ensures var (g1, _) := Start(Empty, true, "build", Some(1000), 5);
      var g2 := Fire(g1, 0);
      var (g3, second) := Start(g2, true, "build", Some(1000), 5);
      var g4 := Settle(g3, 0);
      && second == Started(1)
      && g4.runs[1].outcome == Pending
      && !IsLocked(g4, "build")
      && Start(g4, true, "build", None, 6).1 == Started(2)
  {
  }
}
