/**
 * The two collaborators of the reload check that hold state: the
 * `grails.util.CacheEntry` that keeps the last reload decision for a while,
 * and the `PrivilegedAction<Resource>` callback that locates the page's
 * source on demand. Time is an explicit `now` parameter.
 */
module ReloadCache {
  import opened JavaTypes

  /**
   * A cached value and the time it was computed. The expiry rule is the one
   * `CacheEntry.getValue(timeout, ...)` applies: an entry is stale once more
   * than `timeout` milliseconds have passed since it was set (a negative
   * timeout never expires).
   */
  class CacheEntry<V> {
    var value: Option<V>   // None until the first value is set
    var createdMillis: int

    constructor ()
      ensures value.None? && createdMillis == 0
    {
      value := None;
      createdMillis := 0;
    }

    predicate HasExpired(timeout: long, now: long)
      reads this
    {
      timeout >= 0 && now - createdMillis > timeout
    }

    /** `getValue` recomputes: no value yet, or the value has expired. */
    predicate NeedsUpdate(timeout: long, now: long)
      reads this
    {
      value.None? || HasExpired(timeout, now)
    }

    method SetValue(v: V, now: long)
      modifies this
      ensures value == Some(v) && createdMillis == now
    {
      value := Some(v);
      createdMillis := now;
    }
  }

  /**
   * The callback that locates the page's current source resource. `current`
   * is what locating it yields right now; `runs` counts the invocations.
   */
  class SourceLocator<R> {
    var current: Option<R>
    var runs: nat

    constructor (current: Option<R>)
      ensures this.current == current && runs == 0
    {
      this.current := current;
      runs := 0;
    }

    method Run() returns (r: Option<R>)
      modifies this`runs
      ensures r == current && runs == old(runs) + 1
    {
      r := current;
      runs := runs + 1;
    }
  }
}
