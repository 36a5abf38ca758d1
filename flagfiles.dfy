/** The flag-file lock of each phase (`lock_flagfile`, `unlock_flagfile`):
    the set of marker files that exist under the results directory. */
module FlagFiles {

  const BUILD_SUFFIX := "BUILD_RUNNING.txt"
  const UPDATE_SUFFIX := "UPDATE_RUNNING.txt"
  const LAUNCH_SUFFIX := "LAUNCHER_RUNNING.txt"

  /** `os.path.join(a, b)` for POSIX paths. */
  function PathJoin(a: string, b: string): string {
    if b != [] && b[0] == '/' then b
    else if a == [] || a[|a| - 1] == '/' then a + b
    else a + "/" + b
  }

  /** `<results>/FlagFiles/<prefix>_<suffix>`: the marker of one phase for one prefix. */
  function FlagPath(resultsDir: string, prefix: string, suffix: string): string {
    PathJoin(PathJoin(resultsDir, "FlagFiles"), prefix + "_" + suffix)
  }

  /** The three phases use different markers, so holding one phase's lock
      never blocks another phase with the same prefix. */
  lemma PhaseMarkersDistinct(resultsDir: string, prefix: string)
    ensures FlagPath(resultsDir, prefix, BUILD_SUFFIX) != FlagPath(resultsDir, prefix, UPDATE_SUFFIX)
    ensures FlagPath(resultsDir, prefix, BUILD_SUFFIX) != FlagPath(resultsDir, prefix, LAUNCH_SUFFIX)
    ensures FlagPath(resultsDir, prefix, UPDATE_SUFFIX) != FlagPath(resultsDir, prefix, LAUNCH_SUFFIX)
  {
  }

  /** The marker files that currently exist. */
  class FlagDir {
    var markers: set<string>

    constructor (markers: set<string>)
      ensures this.markers == markers
    {
      this.markers := markers;
    }

    /** `lock_flagfile`: refuse when the marker exists, otherwise create it. */
    method Lock(path: string) returns (acquired: bool)
      modifies this
      ensures acquired <==> path !in old(markers)
      ensures markers == old(markers) + {path}
    {
      if path in markers {
        acquired := false;
      } else {
        markers := markers + {path};
        acquired := true;
      }
    }

    /** `unlock_flagfile`: remove the marker if it exists; nothing otherwise. */
    method Unlock(path: string)
      modifies this
      ensures markers == old(markers) - {path}
      ensures path !in old(markers) ==> markers == old(markers)
    {
      if path in markers {
        markers := markers - {path};
      }
    }
  }

  /** Two locks in a row on one marker return (true, false). */
  method LockLock(dir: FlagDir, path: string) returns (first: bool, second: bool)
    requires path !in dir.markers
    modifies dir
    ensures first && !second
    ensures dir.markers == old(dir.markers) + {path}
  {
    first := dir.Lock(path);
    second := dir.Lock(path);
  }

  /** An unlock followed by a lock always takes the lock. */
  method UnlockLock(dir: FlagDir, path: string) returns (acquired: bool)
    modifies dir
    ensures acquired
    ensures dir.markers == old(dir.markers) + {path}
  {
    dir.Unlock(path);
    acquired := dir.Lock(path);
  }
}
