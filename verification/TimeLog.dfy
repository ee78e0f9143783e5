/** Chronological logs of events, and lists that have forgotten the oldest of them. Both
    rate limiters keep such lists. */
module TimeLog {

  /** Times in order, none after `now`. */
  ghost predicate Ascending(s: seq<int>, now: int) {
    s == [] || (s[|s| - 1] <= now && Ascending(s[..|s| - 1], s[|s| - 1]))
  }

  lemma {:induction false} AscendingSorted(s: seq<int>, now: int)
    requires Ascending(s, now)
    ensures forall i, j :: 0 <= i <= j < |s| ==> s[i] <= s[j] <= now
  {
    if s != [] { AscendingSorted(s[..|s| - 1], s[|s| - 1]); }
  }

  /** The entries of a complete log that are not older than the cutoff. */
  function Recent(s: seq<int>, cutoff: int): seq<int> {
    if s == [] then []
    else Recent(s[..|s| - 1], cutoff) + (if s[|s| - 1] >= cutoff then [s[|s| - 1]] else [])
  }

  lemma {:induction false} RecentIsSuffix(s: seq<int>, cutoff: int, k: nat)
    requires k <= |s|
    requires forall i :: 0 <= i < k ==> s[i] < cutoff
    requires forall i :: k <= i < |s| ==> s[i] >= cutoff
    ensures Recent(s, cutoff) == s[k..]
  {
    if s != [] {
      var n := |s| - 1;
      if k <= n {
        RecentIsSuffix(s[..n], cutoff, k);
        assert s[k..] == s[..n][k..] + [s[n]];
      } else {
        RecentIsSuffix(s[..n], cutoff, n);
      }
    }
  }

  /** kept is full without some leading entries, all older than the cutoff. */
  ghost predicate Forgets(kept: seq<int>, full: seq<int>, cutoff: int) {
    if |full| <= |kept| then kept == full else full[0] < cutoff && Forgets(kept, full[1..], cutoff)
  }

  lemma {:induction false} ForgetsPrefix(kept: seq<int>, full: seq<int>, cutoff: int)
    requires Forgets(kept, full, cutoff)
    ensures |kept| <= |full| && kept == full[|full| - |kept|..]
    ensures forall i :: 0 <= i < |full| - |kept| ==> full[i] < cutoff
  {
    if |full| > |kept| { ForgetsPrefix(kept, full[1..], cutoff); }
  }

  lemma {:induction false} ForgetsMore(kept: seq<int>, full: seq<int>, cutoff: int, k: nat)
    requires Forgets(kept, full, cutoff) && k <= |kept| && forall i :: 0 <= i < k ==> kept[i] < cutoff
    ensures Forgets(kept[k..], full, cutoff)
    decreases |full|, k
  {
    if |full| > |kept| {
      ForgetsMore(kept, full[1..], cutoff, k);
    } else if k > 0 {
      ForgetsMore(kept[1..], full[1..], cutoff, k - 1);
      assert kept[1..][k - 1..] == kept[k..];
    }
  }

  lemma {:induction false} ForgetsLaterAppend(kept: seq<int>, full: seq<int>, cutoff: int, later: int, more: seq<int>)
    requires Forgets(kept, full, cutoff) && cutoff <= later
    ensures Forgets(kept + more, full + more, later)
  {
    if |full| > |kept| {
      ForgetsLaterAppend(kept, full[1..], cutoff, later, more);
      assert (full + more)[1..] == full[1..] + more;
    }
  }

  lemma {:induction false} RecentBounds(s: seq<int>, cutoff: int)
    ensures forall t :: t in Recent(s, cutoff) <==> t in s && t >= cutoff
  {
    if s != [] {
      RecentBounds(s[..|s| - 1], cutoff);
      assert s == s[..|s| - 1] + [s[|s| - 1]];
    }
  }

  lemma {:induction false} RecentDropsHead(s: seq<int>, cutoff: int)
    requires s != [] && s[0] < cutoff
    ensures Recent(s, cutoff) == Recent(s[1..], cutoff)
  {
    if |s| > 1 {
      RecentDropsHead(s[..|s| - 1], cutoff);
      assert s[1..][..|s| - 2] == s[..|s| - 1][1..];
    }
  }

  /** What was forgotten does not matter for the recent part. */
  lemma {:induction false} RecentOfKept(kept: seq<int>, full: seq<int>, cutoff: int, later: int)
    requires Forgets(kept, full, cutoff) && cutoff <= later
    ensures Recent(kept, later) == Recent(full, later)
  {
    if |full| > |kept| {
      RecentOfKept(kept, full[1..], cutoff, later);
      RecentDropsHead(full, later);
    }
  }

  lemma {:induction false} ForgetsAll(full: seq<int>, cutoff: int)
    requires forall i :: 0 <= i < |full| ==> full[i] < cutoff
    ensures Forgets([], full, cutoff)
  {
    if full != [] { ForgetsAll(full[1..], cutoff); }
  }

  /** In chronological order the recent part is what remains after forgetting. */
  lemma {:induction false} RecentForgets(full: seq<int>, now: int, cutoff: int)
    requires Ascending(full, now)
    ensures Forgets(Recent(full, cutoff), full, cutoff)
  {
    if full != [] {
      var init, last := full[..|full| - 1], full[|full| - 1];
      assert init + [last] == full;
      if last >= cutoff {
        RecentForgets(init, last, cutoff);
        ForgetsLaterAppend(Recent(init, cutoff), init, cutoff, cutoff, [last]);
      } else {
        AscendingSorted(full, now);
        RecentIsSuffix(full, cutoff, |full|);
        ForgetsAll(full, cutoff);
      }
    }
  }

  /** Forgetting twice is forgetting. */
  lemma {:induction false} ForgetsTransitive(a: seq<int>, b: seq<int>, c: seq<int>, cutoff: int, later: int)
    requires Forgets(a, b, later) && Forgets(b, c, cutoff) && cutoff <= later
    ensures Forgets(a, c, later)
  {
    ForgetsPrefix(a, b, later);
    if |c| > |b| { ForgetsTransitive(a, b, c[1..], cutoff, later); }
  }
}
