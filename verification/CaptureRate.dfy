/** The sliding-window limit on how often one history scope may be captured. */
module CaptureRate {
  import opened Text
  import opened TimeLog
  import IdentityStore

  type Generation = IdentityStore.PaneGeneration
  datatype Key = Key(user: string, viewer: string, session: string, pane: string, generation: Generation, mode: string)

  datatype Rate = Rate(requests: seq<int>, lastSeen: int)
  datatype RateConfig = RateConfig(limit: nat, window: int, maxScopes: nat)
  datatype Verdict = Granted | ScopesExceeded | RateExceeded

  // ----- The decision as a function of the rate table

  function Live(rates: map<Key, Rate>, cutoff: int): map<Key, Rate> {
    map k | k in rates && !(rates[k].lastSeen < cutoff) :: rates[k]
  }

  datatype Entry = Missing | Known(rate: Rate)

  function Lookup(rates: map<Key, Rate>, k: Key): Entry { if k in rates then Known(rates[k]) else Missing }

  function RequestsOf(entry: Entry): seq<int> { if entry.Known? then entry.rate.requests else [] }

  function Decide(config: RateConfig, rates: map<Key, Rate>, key: Key, now: int): (r: (Verdict, map<Key, Rate>)) {
    var cutoff := now - config.window;
    var live := Live(rates, cutoff);
    if key !in live && |live| >= config.maxScopes then (ScopesExceeded, live)
    else
      var kept := Recent(RequestsOf(Lookup(live, key)), cutoff + 1);
      if |kept| >= config.limit then (RateExceeded, live[key := Rate(kept, now)])
      else (Granted, live[key := Rate(kept + [now], now)])
  }

  // ----- What the table remembers of the complete history of grants

  datatype Grant = Grant(key: Key, time: int)

  function GrantsOf(log: seq<Grant>, k: Key): seq<int> {
    if log == [] then []
    else
      var last := log[|log| - 1];
      GrantsOf(log[..|log| - 1], k) + (if last.key == k then [last.time] else [])
  }

  /** Any limit+1 consecutive grants of one scope span at least a window. */
  ghost predicate Spaced(s: seq<int>, limit: nat, window: int) {
    forall i :: limit <= i < |s| ==> s[i - limit] <= s[i] - window
  }

  /** What one entry of the table still knows about all grants of its scope. */
  ghost predicate ScopeOk(config: RateConfig, entry: Entry, grants: seq<int>, now: int) {
    && Ascending(grants, now)
    && Spaced(grants, config.limit, config.window)
    && Forgets(RequestsOf(entry), grants, now - config.window + 1)
    && (entry.Known? ==> Ascending(grants, entry.rate.lastSeen) && entry.rate.lastSeen <= now)
  }

  ghost predicate RatesOk(config: RateConfig, rates: map<Key, Rate>, log: seq<Grant>, now: int) {
    && |rates| <= config.maxScopes
    && forall k :: ScopeOk(config, Lookup(rates, k), GrantsOf(log, k), now)
  }

  lemma AscendingLater(s: seq<int>, now: int, later: int)
    requires Ascending(s, now) && now <= later
    ensures Ascending(s, later)
  {
  }

  lemma ForgetsLater(kept: seq<int>, full: seq<int>, cutoff: int, later: int)
    requires Forgets(kept, full, cutoff) && cutoff <= later
    ensures Forgets(kept, full, later)
  {
    ForgetsLaterAppend(kept, full, cutoff, later, []);
    assert kept + [] == kept && full + [] == full;
  }

  /** Dropping a whole entry loses nothing that is still in the window. */
  lemma StaleEntryDropped(config: RateConfig, entry: Entry, grants: seq<int>, before: int, now: int)
    requires ScopeOk(config, entry, grants, before) && before <= now
    ensures ScopeOk(config, Survivor(entry, now - config.window), grants, now)
  {
    var cutoff := now - config.window;
    AscendingLater(grants, before, now);
    ForgetsLater(RequestsOf(entry), grants, before - config.window + 1, cutoff + 1);
    if entry.Known? && entry.rate.lastSeen < cutoff {
      AscendingSorted(grants, entry.rate.lastSeen);
      ForgetsAll(grants, cutoff + 1);
    }
  }

  lemma SubsetSize<T>(a: set<T>, b: set<T>)
    requires a <= b
    ensures |a| <= |b|
  {
    assert b == a + (b - a);
  }

  lemma GrantAppended(log: seq<Grant>, key: Key, now: int, k: Key)
    ensures GrantsOf(log + [Grant(key, now)], k) == GrantsOf(log, k) + (if key == k then [now] else [])
  {
    assert (log + [Grant(key, now)])[..|log|] == log;
  }

  /** The decided scope itself: its kept list is exactly the grants in the window. */
  lemma DecidedEntry(config: RateConfig, entry: Entry, grants: seq<int>, now: int)
    requires ScopeOk(config, entry, grants, now)
    ensures var kept := Recent(RequestsOf(entry), now - config.window + 1);
            && kept == Recent(grants, now - config.window + 1)
            && ScopeOk(config, Known(Rate(kept, now)), grants, now)
            && (|kept| < config.limit ==> ScopeOk(config, Known(Rate(kept + [now], now)), grants + [now], now))
  {
    var cutoff := now - config.window + 1;
    RecentOfKept(RequestsOf(entry), grants, cutoff, cutoff);
    RecentForgets(grants, now, cutoff);
    if |Recent(grants, cutoff)| < config.limit {
      GrantExtends(grants, now, config.limit, config.window);
    }
  }

  lemma GrantExtends(full: seq<int>, now: int, limit: nat, window: int)
    requires Ascending(full, now) && Spaced(full, limit, window)
    requires |Recent(full, now - window + 1)| < limit
    ensures Ascending(full + [now], now) && Spaced(full + [now], limit, window)
    ensures Forgets(Recent(full, now - window + 1) + [now], full + [now], now - window + 1)
  {
    var kept, cutoff := Recent(full, now - window + 1), now - window + 1;
    RecentForgets(full, now, cutoff);
    ForgetsLaterAppend(kept, full, cutoff, cutoff, [now]);
    ForgetsPrefix(kept, full, cutoff);
    assert (full + [now])[..|full|] == full;
  }

  /** Time passing alone keeps the table faithful. */
  lemma RatesLater(config: RateConfig, rates: map<Key, Rate>, log: seq<Grant>, before: int, now: int)
    requires RatesOk(config, rates, log, before) && before <= now
    ensures RatesOk(config, rates, log, now)
  {
    forall k
      ensures ScopeOk(config, Lookup(rates, k), GrantsOf(log, k), now)
    {
      AscendingLater(GrantsOf(log, k), before, now);
      ForgetsLater(RequestsOf(Lookup(rates, k)), GrantsOf(log, k), before - config.window + 1, now - config.window + 1);
    }
  }

  function LogAfter(config: RateConfig, rates: map<Key, Rate>, log: seq<Grant>, key: Key, now: int): seq<Grant> {
    if Decide(config, rates, key, now).0.Granted? then log + [Grant(key, now)] else log
  }

  function Survivor(entry: Entry, cutoff: int): Entry {
    if entry.Known? && entry.rate.lastSeen < cutoff then Missing else entry
  }

  /** What a decision does to each entry. */
  lemma DecideLookup(config: RateConfig, rates: map<Key, Rate>, key: Key, now: int, k: Key)
    ensures var (verdict, after) := Decide(config, rates, key, now);
            var entry := Survivor(Lookup(rates, k), now - config.window);
            var kept := Recent(RequestsOf(entry), now - config.window + 1);
            && Lookup(after, k) == (if k != key || verdict.ScopesExceeded? then entry
                                    else if verdict.RateExceeded? then Known(Rate(kept, now))
                                    else Known(Rate(kept + [now], now)))
            && (k == key && verdict.Granted? ==> |kept| < config.limit)
  {
    var live := Live(rates, now - config.window);
    assert Lookup(live, k) == Survivor(Lookup(rates, k), now - config.window);
  }

  lemma DecideKeepsScope(config: RateConfig, rates: map<Key, Rate>, log: seq<Grant>, before: int, key: Key, now: int, k: Key)
    requires ScopeOk(config, Lookup(rates, k), GrantsOf(log, k), before) && before <= now
    ensures ScopeOk(config, Lookup(Decide(config, rates, key, now).1, k), GrantsOf(LogAfter(config, rates, log, key, now), k), now)
  {
    var grants := GrantsOf(log, k);
    var entry := Survivor(Lookup(rates, k), now - config.window);
    StaleEntryDropped(config, Lookup(rates, k), grants, before, now);
    DecidedEntry(config, entry, grants, now);
    DecideLookup(config, rates, key, now, k);
    GrantAppended(log, key, now, k);
    assert grants + [] == grants;
  }

  /** Every decision keeps the table faithful to the history of grants and bounded. */
  lemma DecideKeeps(config: RateConfig, rates: map<Key, Rate>, log: seq<Grant>, before: int, key: Key, now: int)
    requires RatesOk(config, rates, log, before) && before <= now
    ensures RatesOk(config, Decide(config, rates, key, now).1, LogAfter(config, rates, log, key, now), now)
  {
    DecideBounded(config, rates, key, now);
    forall k
      ensures ScopeOk(config, Lookup(Decide(config, rates, key, now).1, k), GrantsOf(LogAfter(config, rates, log, key, now), k), now)
    {
      DecideKeepsScope(config, rates, log, before, key, now, k);
    }
  }

  /** The verdict counts the complete history: a scope is refused for its rate exactly when
      its grants inside the window already number `limit`. */
  lemma VerdictCountsGrants(config: RateConfig, rates: map<Key, Rate>, log: seq<Grant>, before: int, key: Key, now: int)
    requires RatesOk(config, rates, log, before) && before <= now
    ensures var live, recent := Live(rates, now - config.window), Recent(GrantsOf(log, key), now - config.window + 1);
            Decide(config, rates, key, now).0 ==
            if key !in live && |live| >= config.maxScopes then ScopesExceeded
            else if |recent| >= config.limit then RateExceeded
            else Granted
  {
    hide ScopeOk, Recent, GrantsOf;
    var entry := Survivor(Lookup(rates, key), now - config.window);
    assert ScopeOk(config, Lookup(rates, key), GrantsOf(log, key), before);
    assert Lookup(Live(rates, now - config.window), key) == entry;
    StaleEntryDropped(config, Lookup(rates, key), GrantsOf(log, key), before, now);
    DecidedEntry(config, entry, GrantsOf(log, key), now);
  }

  // ----- Which scopes take up room

  /** When a scope last asked and was not turned away for want of room. */
  function LastAsked(asks: seq<Grant>, k: Key): Option<int> {
    if asks == [] then None
    else if asks[|asks| - 1].key == k then Some(asks[|asks| - 1].time)
    else LastAsked(asks[..|asks| - 1], k)
  }

  /** The table has an entry, with that time, for every scope that asked within the window. */
  ghost predicate ScopesOk(config: RateConfig, rates: map<Key, Rate>, asks: seq<Grant>, now: int) {
    forall k :: match Lookup(rates, k)
                case Known(rate) => LastAsked(asks, k) == Some(rate.lastSeen)
                case Missing => LastAsked(asks, k).None? || LastAsked(asks, k).value < now - config.window
  }

  function AsksAfter(config: RateConfig, rates: map<Key, Rate>, asks: seq<Grant>, key: Key, now: int): seq<Grant> {
    if Decide(config, rates, key, now).0.ScopesExceeded? then asks else asks + [Grant(key, now)]
  }

  lemma ScopesKeep(config: RateConfig, rates: map<Key, Rate>, asks: seq<Grant>, before: int, key: Key, now: int)
    requires ScopesOk(config, rates, asks, before) && before <= now
    ensures ScopesOk(config, Decide(config, rates, key, now).1, AsksAfter(config, rates, asks, key, now), now)
  {
    forall k
      ensures match Lookup(Decide(config, rates, key, now).1, k)
              case Known(rate) => LastAsked(AsksAfter(config, rates, asks, key, now), k) == Some(rate.lastSeen)
              case Missing =>
                var last := LastAsked(AsksAfter(config, rates, asks, key, now), k);
                last.None? || last.value < now - config.window
    {
      DecideLookup(config, rates, key, now, k);
      assert (asks + [Grant(key, now)])[..|asks|] == asks;
    }
  }

  /** So the scopes that take up room are those that asked within the window, and one is turned away
      exactly when it is none of them and they are as many as there may be. */
  lemma ScopesCounted(config: RateConfig, rates: map<Key, Rate>, asks: seq<Grant>, before: int, key: Key, now: int)
    returns (recent: set<Key>)
    requires ScopesOk(config, rates, asks, before) && before <= now
    ensures forall k :: k in recent <==> LastAsked(asks, k).Some? && LastAsked(asks, k).value >= now - config.window
    ensures Decide(config, rates, key, now).0.ScopesExceeded? <==> key !in recent && |recent| >= config.maxScopes
  {
    recent := Live(rates, now - config.window).Keys;
    forall k
      ensures k in recent <==> LastAsked(asks, k).Some? && LastAsked(asks, k).value >= now - config.window
    {
      assert Lookup(rates, k).Known? <==> k in rates;
    }
  }

  lemma DecideBounded(config: RateConfig, rates: map<Key, Rate>, key: Key, now: int)
    requires |rates| <= config.maxScopes
    ensures |Decide(config, rates, key, now).1| <= config.maxScopes
  {
    var live := Live(rates, now - config.window);
    SubsetSize(live.Keys, rates.Keys);
    var after := Decide(config, rates, key, now).1;
    assert after.Keys == live.Keys || after.Keys == live.Keys + {key};
    assert key in live ==> live.Keys + {key} == live.Keys;
    assert |after.Keys| == |after|;
  }

  // ----- The limit that follows

  /** Positions of the grants that fall in (t - window, t]. */
  ghost function Window(s: seq<int>, t: int, window: int): set<int> {
    set i | 0 <= i < |s| && t - window < s[i] <= t
  }

  ghost function Range(lo: int, hi: int): (r: set<int>)
    requires lo <= hi
    ensures |r| == hi - lo && forall i :: i in r <==> lo <= i < hi
    decreases hi - lo
  {
    if lo == hi then {} else Range(lo, hi - 1) + {hi - 1}
  }

  lemma {:induction false} WindowBound(s: seq<int>, now: int, limit: nat, window: int, t: int)
    requires Ascending(s, now) && Spaced(s, limit, window)
    ensures |Window(s, t, window)| <= limit
  {
    if s != [] {
      var m := |s| - 1;
      AscendingSorted(s, now);
      if m in Window(s, t, window) {
        assert limit <= m ==> s[m - limit] <= s[m] - window;
        assert forall i :: i in Window(s, t, window) ==> m - limit < i <= m;
        SubsetSize(Window(s, t, window), Range(m - limit + 1, m + 1));
      } else {
        WindowBound(s[..m], s[m], limit, window, t);
        assert Window(s, t, window) == Window(s[..m], t, window);
      }
    }
  }

  /** At most `limit` grants of one scope in any window, over the whole history. */
  lemma GrantsWithinLimit(config: RateConfig, rates: map<Key, Rate>, log: seq<Grant>, now: int, key: Key, t: int)
    requires RatesOk(config, rates, log, now)
    ensures |Window(GrantsOf(log, key), t, config.window)| <= config.limit
  {
    assert ScopeOk(config, Lookup(rates, key), GrantsOf(log, key), now);
    WindowBound(GrantsOf(log, key), now, config.limit, config.window, t);
  }

  // ----- The code

  method KeepRecent(requests: seq<int>, cutoff: int) returns (kept: seq<int>)
    ensures kept == Recent(requests, cutoff + 1)
  {
    kept := [];
    for i := 0 to |requests|
      invariant kept == Recent(requests[..i], cutoff + 1)
    {
      assert requests[..i + 1][..i] == requests[..i];
      if requests[i] > cutoff {
        kept := kept + [requests[i]];
      }
    }
    assert requests[..|requests|] == requests;
  }

  method DropStale(rates: map<Key, Rate>, cutoff: int) returns (live: map<Key, Rate>)
    ensures live == Live(rates, cutoff)
  {
    live := rates;
    var left := rates.Keys;
    while left != {}
      invariant left <= rates.Keys
      invariant live == map k | k in rates && (k in left || !(rates[k].lastSeen < cutoff)) :: rates[k]
      decreases left
    {
      var candidate :| candidate in left;
      if rates[candidate].lastSeen < cutoff {
        live := live - {candidate};
      }
      left := left - {candidate};
    }
  }

  method AllowLocked(config: RateConfig, rates: map<Key, Rate>, key: Key, now: int)
    returns (verdict: Verdict, rates': map<Key, Rate>)
    ensures (verdict, rates') == Decide(config, rates, key, now)
  {
    var cutoff := now - config.window;
    rates' := DropStale(rates, cutoff);
    var known := key in rates';
    if !known && |rates'| >= config.maxScopes {
      return ScopesExceeded, rates';
    }
    var requests: seq<int> := [];
    if known {
      requests := rates'[key].requests;
    }
    var kept := KeepRecent(requests, cutoff);
    if |kept| >= config.limit {
      return RateExceeded, rates'[key := Rate(kept, now)];
    }
    return Granted, rates'[key := Rate(kept + [now], now)];
  }
}
