/**
 * Concrete runs of the model: the `build` command whose timeout releases
 * its lock before the handler finishes, the `test1` fixture whose handler
 * never settles, and a first scan of a commands directory.
 */
module Scenarios {
  import opened Common
  import opened Registry
  import opened Guard

  /** The run of `build` (timeout 1000 ms) started at t = 0, and its timer firing at t = 1000. */
  function BuildStarted(): GuardState
  {
    Start(Guard.Empty, true, "build", Some(1000), 0).0
  }

  function BuildTimedOut(): GuardState
  {
    Fire(BuildStarted(), 0)
  }

  /**
   * `build` is triggered at t = 0 and locks; its timer fires at t = 1000,
   * rejects the run with the timeout message and releases the lock, so the
   * trigger at t = 5000 starts a new run.
   */
  lemma BuildTimeoutReleasesLock()
    ensures Start(Guard.Empty, true, "build", Some(1000), 0).1 == Started(0)
    ensures BuildStarted().runs[0].timer == Armed && IsLocked(BuildStarted(), "build")
    ensures !IsLocked(BuildTimedOut(), "build")
    ensures BuildTimedOut().runs[0].outcome == Rejected(TimeoutReason("build"))
    ensures Start(BuildTimedOut(), true, "build", Some(1000), 5000).1 == Started(1)
  {
    assert IsLocked(BuildStarted(), "build");
  }

  /**
   * The first handler settles at t = 6000, after the run of t = 5000
   * started: the completion is stale, so the new run keeps its lock, its
   * id and its pending promise, and the first promise stays rejected.
   */
  lemma BuildLateCompletionIsStale()
    ensures var g3 := Start(BuildTimedOut(), true, "build", Some(1000), 5000).0;
      var g4 := Guard.Settle(g3, 0);
      && IsLocked(g4, "build") && g4.jobs["build"] == 5000
      && g4.runs[0].outcome == BuildTimedOut().runs[0].outcome
      && g4.runs[1] == g3.runs[1] && g4.runs[1].outcome == Pending
  {
    var g3 := Start(BuildTimedOut(), true, "build", Some(1000), 5000).0;
    assert g3.runs[0].jobId == 0 && g3.jobs["build"] == 5000;
  }

  /**
   * The first handler settles at t = 2000, after its timer fired but
   * before any new trigger: `#jobs.build` still holds its id, so the
   * completion counts as current, not stale. It finds the lock already
   * released and leaves it so, the fired timer is not re-armed, the
   * promise stays rejected, and the trigger at t = 5000 still starts.
   */
  lemma BuildEarlyCompletionIsCurrent()
    ensures var g := Guard.Settle(BuildTimedOut(), 0);
      && g.jobs["build"] == 0 && g.runs[0].jobId == 0
      && !IsLocked(g, "build")
      && g.runs[0].settled && g.runs[0].timer == Fired
      && g.runs[0].outcome == Rejected(TimeoutReason("build"))
      && Start(g, true, "build", Some(1000), 5000).1 == Started(1)
  {
    assert BuildTimedOut().jobs["build"] == 0 && BuildTimedOut().runs[0].jobId == 0;
  }

  /**
   * The `test1` fixture: a handler that never settles and a 2000 ms
   * timeout. A second trigger before the timer fires is refused with the
   * lock message; after the timer fires, the next trigger is accepted.
   */
  lemma NeverSettlingHandlerIsFreedByItsTimer()
    ensures var (g1, _) := Start(Guard.Empty, true, "test1", Some(2000), 0);
      && Start(g1, true, "test1", Some(2000), 1000) == (g1, LockedOut(LockedReason("test1")))
      && Start(Fire(g1, 0), true, "test1", Some(2000), 3000).1 == Started(1)
  {
    var (g1, _) := Start(Guard.Empty, true, "test1", Some(2000), 0);
    assert IsLocked(g1, "test1");
    assert !IsLocked(Fire(g1, 0), "test1");
  }

  /** A directory entry whose stat succeeds with `mtime` and whose import yields `m`. */
  function Entry(name: string, mtime: int, m: Module): ScanEntry
  {
    ScanEntry(name, true, Stamp(mtime), Loaded(m))
  }

  /**
   * Folders `a` and `b` hold modules with a handler and no schedule, and
   * folder `x` a module without a handler: after the first scan `a` and
   * `b` are commands, `x` and `c` are not, and no cron job was created.
   */
  lemma FirstScanOfThreeFolders()
    ensures var m := Module(Some(0), None, None);
      var entries := [Entry("a", 1, m), Entry("b", 2, m), Entry("x", 3, Module(None, None, None))];
      var res := Scan(RegistryState(map[], []), entries, None);
      && res.updated == ["a", "b"]
      && res.state.commands.Keys == {"a", "b"}
      && res.state.commands["a"].timeout == DefaultTimeout
      && res.state.cron == []
  {
    var m := Module(Some(0), None, None);
    var ea, eb, ex := Entry("a", 1, m), Entry("b", 2, m), Entry("x", 3, Module(None, None, None));
    var entries := [ea, eb, ex];
    var st0 := RegistryState(map[], []);
    var ca := Command("a", 0, DefaultTimeout, 1, []);
    var cb := Command("b", 0, DefaultTimeout, 2, []);
    assert [ea][..0] == [] && [ea, eb][..1] == [ea] && entries[..2] == [ea, eb];
    assert Reload(st0, "a", 0, m, 1, true) == RegistryState(map["a" := ca], []);
    assert Scan(st0, [ea], None) == ScanResult(RegistryState(map["a" := ca], []), ["a"]);
    assert Reload(RegistryState(map["a" := ca], []), "b", 0, m, 2, true) == RegistryState(map["a" := ca, "b" := cb], []);
    assert Scan(st0, [ea, eb], None) == ScanResult(RegistryState(map["a" := ca, "b" := cb], []), ["a", "b"]);
  }
}
