/** The login limiter: lazily pruned lists of failure times, one per client. */
module LoginLimiter {
  import opened Text
  import opened TimeLog

  const UNKNOWN := "unknown"

  function LimiterKey(key: string): (k: string)
    ensures k != ""
  {
    var trimmed := TrimSpace(key);
    if trimmed == "" then UNKNOWN else trimmed
  }

  /** Two clients share a list exactly when their names differ in white space around them only, or
      one has no name and the other is called what stands for none. */
  lemma SameKeyIf(a: string, b: string)
    ensures LimiterKey(a) == LimiterKey(b) <==>
      || TrimSpace(a) == TrimSpace(b)
      || (TrimSpace(a) == "" && TrimSpace(b) == "unknown") || (TrimSpace(a) == "unknown" && TrimSpace(b) == "")
  {
  }

  /** Whatever the list has forgotten is too old to count now or ever again. */
  ghost predicate Keeps(kept: seq<int>, full: seq<int>, now: int, window: int) {
    Ascending(full, now) && Forgets(kept, full, now - window)
  }

  lemma KeepsLater(kept: seq<int>, full: seq<int>, now: int, later: int, window: int)
    requires Keeps(kept, full, now, window) && now <= later
    ensures Keeps(kept, full, later, window)
  {
    ForgetsLaterAppend(kept, full, now - window, later - window, []);
    assert kept + [] == kept && full + [] == full;
  }

  /** Dropping the old head of the kept list yields exactly the recent part of the log. */
  lemma PruneIsRecent(kept: seq<int>, full: seq<int>, now: int, window: int, k: nat)
    requires Keeps(kept, full, now, window) && k <= |kept|
    requires forall i :: 0 <= i < k ==> kept[i] < now - window
    requires k < |kept| ==> kept[k] >= now - window
    ensures kept[k..] == Recent(full, now - window)
    ensures Keeps(kept[k..], full, now, window)
  {
    ForgetsMore(kept, full, now - window, k);
    var left := kept[k..];
    ForgetsPrefix(left, full, now - window);
    var lost := |full| - |left|;
    AscendingSorted(full, now);
    assert left != [] ==> full[lost] == left[0];
    RecentIsSuffix(full, now - window, lost);
  }

  lemma KeepsAppend(kept: seq<int>, full: seq<int>, now: int, window: int)
    requires Keeps(kept, full, now, window)
    ensures Keeps(kept + [now], full + [now], now, window)
  {
    ForgetsLaterAppend(kept, full, now - window, now - window, [now]);
    assert (full + [now])[..|full|] == full;
  }

  lemma RecentWait(kept: seq<int>, full: seq<int>, now: int, window: int)
    requires Keeps(kept, full, now, window) && kept == Recent(full, now - window) && kept != []
    ensures 0 <= kept[0] + window - now <= window
  {
    RecentBounds(full, now - window);
    AscendingSorted(full, now);
    assert kept[0] in full;
  }

  function At(m: map<string, seq<int>>, key: string): seq<int> { if key in m then m[key] else [] }

  ghost predicate AllKeep(attempts: map<string, seq<int>>, failures: map<string, seq<int>>, now: int, window: int) {
    forall key :: Keeps(At(attempts, key), At(failures, key), now, window)
  }

  /** An empty list is not kept in the map. */
  function Put(m: map<string, seq<int>>, key: string, s: seq<int>): (r: map<string, seq<int>>)
    ensures forall k :: At(r, k) == if k == key then s else At(m, k)
  {
    if s == [] then m - {key} else m[key := s]
  }

  lemma AllKeepPut(attempts: map<string, seq<int>>, failures: map<string, seq<int>>, failures': map<string, seq<int>>,
                   now: int, window: int, key: string, kept: seq<int>)
    requires AllKeep(attempts, failures, now, window) && Keeps(kept, At(failures', key), now, window)
    requires forall k :: k != key ==> At(failures', k) == At(failures, k)
    ensures AllKeep(Put(attempts, key, kept), failures', now, window)
  {
    forall k
      ensures Keeps(At(Put(attempts, key, kept), k), At(failures', k), now, window)
    {
      assert k != key ==> Keeps(At(attempts, k), At(failures, k), now, window);
    }
  }

  ghost predicate Pruned(attempts: map<string, seq<int>>, failures: map<string, seq<int>>, now: int, window: int, key: string) {
    At(attempts, key) == Recent(At(failures, key), now - window) && (key in attempts ==> attempts[key] != [])
  }

  lemma AbsentIsPruned(attempts: map<string, seq<int>>, failures: map<string, seq<int>>, now: int, window: int, key: string)
    requires AllKeep(attempts, failures, now, window) && key !in attempts
    ensures Pruned(attempts, failures, now, window, key)
  {
    PruneIsRecent([], At(failures, key), now, window, 0);
  }

  lemma PrunedElsewhere(attempts: map<string, seq<int>>, failures: map<string, seq<int>>, now: int, window: int, key: string,
                        other: string, kept: seq<int>)
    requires Pruned(attempts, failures, now, window, key) && other != key
    ensures Pruned(Put(attempts, other, kept), failures, now, window, key)
  {
  }

  method FirstRecent(list: seq<int>, cutoff: int) returns (keepFrom: nat)
    ensures keepFrom <= |list| && (forall i :: 0 <= i < keepFrom ==> list[i] < cutoff)
    ensures keepFrom < |list| ==> list[keepFrom] >= cutoff
  {
    keepFrom := 0;
    while keepFrom < |list| && list[keepFrom] < cutoff
      invariant keepFrom <= |list|
      invariant forall i :: 0 <= i < keepFrom ==> list[i] < cutoff
    {
      keepFrom := keepFrom + 1;
    }
  }

  class Limiter {
    const limit: int
    const window: int
    var attempts: map<string, seq<int>>
    var lastSweep: int
    var swept: bool                            // false while lastSweep is the zero time
    ghost var failures: map<string, seq<int>>  // every failure since the key's last Reset
    ghost var clock: int

    ghost predicate Valid()
      reads this
    {
      limit >= 1 && window >= 0 && AllKeep(attempts, failures, clock, window)
    }

    constructor (limit: int, window: int)
      requires limit >= 1 && window >= 0
      ensures Valid() && failures == map[] && this.limit == limit && this.window == window
    {
      this.limit, this.window := limit, window;
      attempts, failures, swept, lastSweep, clock := map[], map[], false, 0, 0;
    }

    method PruneLocked(key: string, now: int) returns (kept: seq<int>)
      requires Valid() && clock == now
      modifies this`attempts
      ensures Valid() && kept == At(attempts, key) == Recent(At(failures, key), now - window)
      ensures Pruned(attempts, failures, now, window, key)
      ensures attempts == Put(old(attempts), key, kept)
    {
      var list := At(attempts, key);
      var keepFrom := FirstRecent(list, now - window);
      PruneIsRecent(list, At(failures, key), now, window, keepFrom);
      kept := list[keepFrom..];
      AllKeepPut(attempts, failures, failures, now, window, key, kept);
      attempts := Put(attempts, key, kept);
    }

    /** At most once a window: nothing is kept but failures still inside it, and no empty list. */
    method SweepLocked(now: int)
      requires Valid() && clock == now
      modifies this`attempts, this`lastSweep, this`swept
      ensures Valid()
      ensures if old(swept && now - lastSweep < window) then attempts == old(attempts) && swept && lastSweep == old(lastSweep)
              else swept && lastSweep == now && forall key :: Pruned(attempts, failures, now, window, key)
    {
      hide Pruned, Put, AllKeep;
      if swept && now - lastSweep < window {
        return;
      }
      lastSweep, swept := now, true;
      var keys := attempts.Keys;
      forall key | key !in keys
        ensures Pruned(attempts, failures, now, window, key)
      {
        AbsentIsPruned(attempts, failures, now, window, key);
      }
      while keys != {}
        invariant Valid() && swept && lastSweep == now && forall key :: key !in keys ==> Pruned(attempts, failures, now, window, key)
        decreases keys
      {
        var key :| key in keys;
        ghost var before := attempts;
        var kept := PruneLocked(key, now);
        forall other | other !in keys
          ensures Pruned(attempts, failures, now, window, other)
        {
          PrunedElsewhere(before, failures, now, window, other, key, kept);
        }
        keys := keys - {key};
      }
    }

    /** Reads the clock, which never goes back. */
    ghost method Tick(now: int)
      requires Valid() && clock <= now
      modifies this`clock
      ensures Valid() && clock == now
    {
      forall key
        ensures Keeps(At(attempts, key), At(failures, key), now, window)
      {
        KeepsLater(At(attempts, key), At(failures, key), clock, now, window);
      }
      clock := now;
    }

    /** The answer counts the complete log, so pruning and sweeping cannot be observed. */
    method Allow(name: string, now: int) returns (allowed: bool, wait: int)
      requires Valid() && clock <= now
      modifies this
      ensures Valid() && clock == now && failures == old(failures)
      ensures var recent := Recent(At(failures, LimiterKey(name)), now - window);
              && allowed == (|recent| < limit)
              && (allowed ==> wait == 0)
              && (!allowed ==> wait == recent[0] + window - now && 0 <= wait <= window)
    {
      var key := LimiterKey(name);
      Tick(now);
      SweepLocked(now);
      var kept := PruneLocked(key, now);
      if |kept| < limit {
        return true, 0;
      }
      RecentWait(kept, At(failures, key), now, window);
      return false, kept[0] + window - now;
    }

    method RecordFailure(name: string, now: int)
      requires Valid() && clock <= now
      modifies this
      ensures Valid() && clock == now
      ensures failures == old(failures)[LimiterKey(name) := old(At(failures, LimiterKey(name))) + [now]]
    {
      var key := LimiterKey(name);
      Tick(now);
      SweepLocked(now);
      var kept := PruneLocked(key, now);
      KeepsAppend(kept, At(failures, key), now, window);
      ghost var log := failures[key := At(failures, key) + [now]];
      AllKeepPut(attempts, failures, log, now, window, key, kept + [now]);
      attempts := attempts[key := kept + [now]];
      failures := log;
    }

    method Reset(name: string)
      requires Valid()
      modifies this`attempts, this`failures
      ensures Valid() && failures == old(failures) - {LimiterKey(name)}
    {
      var key := LimiterKey(name);
      AllKeepPut(attempts, failures, failures - {key}, clock, window, key, []);
      attempts := attempts - {key};
      failures := failures - {key};
    }
  }
}
