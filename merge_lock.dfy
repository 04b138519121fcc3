/**
 * `MergeLock`: the lock file `.auto-claude/.locks/merge-<spec>.lock` that keeps two merges of one spec from running
 * at once.  Each `__enter__` is one atomic step here.  The clock and the process-liveness test are parameters; the
 * lock file is an object both lock holders see.
 */
module MergeLocking {
  import opened Wrappers

  /** `MERGE_LOCK_TIMEOUT`, in seconds. */
  const MergeLockTimeout: int := 300

  /** What a lock file holds. */
  datatype LockContent =
    | Entry(timestamp: int, pid: int)   // JSON the checks decide on: a missing `timestamp` reads as 0, a falsy `pid` as 0
    | Corrupt                           // text that is not JSON (`JSONDecodeError`)
    | Unusable                          // JSON on which the checks raise an exception other than `JSONDecodeError`

  /** The lock file on disk, shared by every `MergeLock` of the spec. */
  class LockFile {
    var content: Option<LockContent>

    constructor ()
      ensures content == None
    {
      content := None;
    }
  }

  /** How `__enter__` ends. */
  datatype EnterResult =
    | Acquired     // the lock was written and is held
    | Busy         // `MergeLockError`: another live merge holds a recent lock
    | Failed       // another error escaped the checks

  /** An existing lock is given up on when it is older than the timeout, or names a process that is not running. */
  predicate Abandoned(timestamp: int, pid: int, now: int, running: int -> bool) {
    now - timestamp > MergeLockTimeout || (pid != 0 && !running(pid))
  }

  /** What `__enter__` decides from the lock file it finds. */
  function EnterResultOf(found: Option<LockContent>, now: int, running: int -> bool): (r: EnterResult)
    ensures r == Failed <==> found == Some(Unusable)
  {
    match found
    case None => Acquired
    case Some(Corrupt) => Acquired
    case Some(Unusable) => Failed
    case Some(Entry(t, pid)) =>
      if now - t > MergeLockTimeout then Acquired
      else if pid != 0 && !running(pid) then Acquired
      else Busy
  }

  /**
   * The lock is acquired exactly when there is no usable lock file, or it is corrupt, or it is abandoned: stale
   * locks are removed whatever their process, and a recent lock is removed only when its process is gone.
   */
  lemma AcquiresExactly(found: Option<LockContent>, now: int, running: int -> bool)
    ensures EnterResultOf(found, now, running) == Acquired <==>
      || found == None
      || found == Some(Corrupt)
      || (found.Some? && found.value.Entry? && Abandoned(found.value.timestamp, found.value.pid, now, running))
    ensures EnterResultOf(found, now, running) == Busy <==>
      found.Some? && found.value.Entry? && !Abandoned(found.value.timestamp, found.value.pid, now, running)
  {
  }

  /**
   * A lock written at `t` by a process that is still running refuses every later `__enter__` that reads it, until
   * the timeout has passed.
   */
  lemma HeldLockExcludes(t: int, pid: int, now: int, running: int -> bool)
    requires running(pid)
    requires now - t <= MergeLockTimeout
    ensures EnterResultOf(Some(Entry(t, pid)), now, running) == Busy
  {
  }

  /** A lock without a process id (`pid` 0) is never taken for orphaned: only the timeout frees it. */
  lemma PidlessLockWaitsForTimeout(t: int, now: int, running: int -> bool)
    ensures EnterResultOf(Some(Entry(t, 0)), now, running) == Acquired <==> now - t > MergeLockTimeout
  {
  }

  class MergeLock {
    const specName: string
    const file: LockFile
    var acquired: bool

    /** `MergeLock(project_dir, spec_name)`: not yet acquired. */
    constructor (specName: string, file: LockFile)
      ensures this.specName == specName && this.file == file && !acquired
    {
      this.specName := specName;
      this.file := file;
      acquired := false;
    }

    /**
     * `__enter__` at time `now` in process `myPid`: an abandoned or corrupt lock is removed, then a fresh lock is
     * written and held; a lock still in use raises `MergeLockError` and changes nothing.
     */
    method Enter(now: int, myPid: int, running: int -> bool) returns (r: EnterResult)
      modifies this, file
      ensures r == EnterResultOf(old(file.content), now, running)
      ensures r == Acquired ==> acquired && file.content == Some(Entry(now, myPid))
      ensures r != Acquired ==> acquired == old(acquired) && file.content == old(file.content)
    {
      var found := file.content;
      if found.Some? {
        match found.value
        case Unusable =>
          return Failed;
        case Corrupt =>
          file.content := None;
        case Entry(t, pid) =>
          if now - t > MergeLockTimeout {
            file.content := None;
          } else if pid != 0 && !running(pid) {
            file.content := None;
          } else {
            return Busy;
          }
      }
      file.content := Some(Entry(now, myPid));
      acquired := true;
      r := Acquired;
    }

    /**
     * `__exit__`: only a lock this object acquired is removed, and only if the removal succeeds (failures are
     * ignored).  `acquired` itself is left as it was.
     */
    method Exit(unlinkSucceeds: bool)
      modifies file
      ensures old(acquired) && unlinkSucceeds ==> file.content == None
      ensures !(old(acquired) && unlinkSucceeds) ==> file.content == old(file.content)
    {
      if acquired && file.content.Some? {
        if unlinkSucceeds {
          file.content := None;
        }
      }
    }
  }

  /**
   * Two merges of one spec share the lock file: once the first has acquired it, a second `__enter__` within the
   * timeout, while the first process runs, is refused and leaves the first merge's lock in place.
   */
  method SecondMergeRefused(file: LockFile, first: MergeLock, second: MergeLock, now: int, later: int,
                            firstPid: int, secondPid: int, running: int -> bool)
      returns (r1: EnterResult, r2: EnterResult)
    requires first.file == file && second.file == file && first != second
    requires running(firstPid) && later - now <= MergeLockTimeout
    modifies first, second, file
    ensures r1 == Acquired ==> r2 == Busy && first.acquired && file.content == Some(Entry(now, firstPid))
  {
    r1 := first.Enter(now, firstPid, running);
    r2 := second.Enter(later, secondPid, running);
  }
}
