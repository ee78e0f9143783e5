/** The stable SSH agent link: retargeted to the socket of the current SSH connection, but
    not to anything that leads back to the link itself. */
module ForwardedAgent {
  import opened Text

  /** Absolute clean paths, one name per component. */
  type Path = seq<string>

  /** The text of a link cut at every slash: names, empty pieces, "." and "..". */
  type Parts = seq<string>

  predicate IsDot(s: string) { s == "" || s == "." }

  predicate IsUp(s: string) { s == ".." }

  predicate IsName(s: string) { !IsDot(s) && !IsUp(s) }

  predicate IsClean(p: Path) { forall i :: 0 <= i < |p| ==> IsName(p[i]) }

  datatype Node = Directory | Socket | File | Link(absolute: bool, target: Parts)

  type FileSystem = map<Path, Node>

  function At(fs: FileSystem, p: Path): Node
    requires p == [] || p in fs
  {
    if p == [] then Directory else fs[p]
  }

  function Parent(p: Path): Path
    requires p != []
  {
    p[..|p| - 1]
  }

  function Up(p: Path): Path { if p == [] then [] else Parent(p) }

  predicate IsDirectory(fs: FileSystem, p: Path) { p == [] || (p in fs && fs[p] == Directory) }

  /** Everything has a name in a directory, and the root is not an entry of its own. */
  ghost predicate TreeOk(fs: FileSystem) {
    [] !in fs && forall p :: p in fs ==> IsClean(p) && (p != [] ==> IsDirectory(fs, Parent(p)))
  }

  // ----- Path resolution, following at most `links` symbolic links

  datatype Hop = Stop | Walk(at: Path) | Jump(at: Path, target: Parts)

  /** Where the text of a link at p starts from. */
  function Base(p: Path, absolute: bool): Path
    requires p != []
  {
    if absolute then [] else Parent(p)
  }

  /** One component: "." stays, ".." goes up in the directory actually reached. */
  function Next(fs: FileSystem, at: Path, s: string): Hop {
    if !IsDirectory(fs, at) then Stop
    else if IsDot(s) then Walk(at)
    else if IsUp(s) then Walk(Up(at))
    else
      var p := at + [s];
      if p !in fs then Stop
      else if fs[p].Link? then Jump(Base(p, fs[p].absolute), fs[p].target)
      else Walk(p)
  }

  datatype Resolved = Nowhere | Found(path: Path, left: nat)

  function Resolve(fs: FileSystem, at: Path, rest: Parts, links: nat): Resolved
    decreases links, |rest|
  {
    if rest == [] then Found(at, links)
    else match Next(fs, at, rest[0])
      case Stop => Nowhere
      case Walk(p) => Resolve(fs, p, rest[1..], links)
      case Jump(base, target) => if links == 0 then Nowhere else Resolve(fs, base, target + rest[1..], links - 1)
  }

  predicate Names(at: Path, s: string, link: Path) { IsName(s) && at + [s] == link }

  /** Whether that resolution passes through `link`. */
  predicate Touches(fs: FileSystem, at: Path, rest: Parts, links: nat, link: Path)
    decreases links, |rest|
  {
    rest != [] &&
    match Next(fs, at, rest[0])
    case Stop => false
    case Walk(p) => Names(at, rest[0], link) || Touches(fs, p, rest[1..], links, link)
    case Jump(base, target) =>
      Names(at, rest[0], link) || (links > 0 && Touches(fs, base, target + rest[1..], links - 1, link))
  }

  /** Resolving a path is resolving its front and going on from there. */
  lemma {:induction false} ResolveConcat(fs: FileSystem, at: Path, a: Parts, b: Parts, links: nat, link: Path)
    ensures var r := Resolve(fs, at, a, links);
            && Resolve(fs, at, a + b, links) == (if r.Nowhere? then Nowhere else Resolve(fs, r.path, b, r.left))
            && Touches(fs, at, a + b, links, link) == (Touches(fs, at, a, links, link) || (r.Found? && Touches(fs, r.path, b, r.left, link)))
    decreases links, |a|
  {
    hide Next, Names;
    if a == [] {
      assert a + b == b;
    } else {
      assert (a + b)[1..] == a[1..] + b;
      match Next(fs, at, a[0])
      case Stop =>
      case Walk(p) => ResolveConcat(fs, p, a[1..], b, links, link);
      case Jump(base, target) =>
        if links > 0 {
          assert target + (a[1..] + b) == (target + a[1..]) + b;
          ResolveConcat(fs, base, target + a[1..], b, links - 1, link);
        }
    }
  }

  /** A resolution follows so many links; with at least as many allowed it ends the same. */
  lemma {:induction false} LinksShift(fs: FileSystem, at: Path, rest: Parts, links: nat, other: nat)
    requires Resolve(fs, at, rest, links).Found?
    ensures var r := Resolve(fs, at, rest, links);
            && r.left <= links
            && Resolve(fs, at, rest, other) == if other + r.left >= links then Found(r.path, other + r.left - links) else Nowhere
    decreases links, |rest|
  {
    hide Next, Names;
    if rest != [] {
      match Next(fs, at, rest[0])
      case Walk(p) => LinksShift(fs, p, rest[1..], links, other);
      case Jump(base, target) =>
        LinksShift(fs, base, target + rest[1..], links - 1, if other > 0 then other - 1 else 0);
    }
  }

  /** A place that is no link is found by walking down to it, past directories only. */
  lemma {:induction false} Stay(fs: FileSystem, p: Path, links: nat, link: Path)
    requires TreeOk(fs) && (p == [] || (p in fs && !fs[p].Link?))
    ensures Resolve(fs, [], p, links) == Found(p, links)
    ensures IsDirectory(fs, p) && !IsDirectory(fs, link) ==> !Touches(fs, [], p, links, link)
    decreases |p|
  {
    hide IsDot, IsUp;
    if p != [] {
      var front, last := Parent(p), p[|p| - 1];
      assert p == front + [last] && [last][1..] == [];
      Stay(fs, front, links, link);
      ResolveConcat(fs, [], front, [last], links, link);
      assert Next(fs, front, last) == Walk(p);
    }
  }

  /** Following a link at its own place leads to its target. */
  lemma FollowLink(fs: FileSystem, link: Path, links: nat)
    requires TreeOk(fs) && link in fs && fs[link].Link?
    ensures Resolve(fs, [], link, links) ==
            if links == 0 then Nowhere else Resolve(fs, Base(link, fs[link].absolute), fs[link].target, links - 1)
  {
    hide IsDot, IsUp;
    var front, last := Parent(link), link[|link| - 1];
    assert link == front + [last] && fs[link].target + [last][1..] == fs[link].target;
    Stay(fs, front, links, link);
    ResolveConcat(fs, [], front, [last], links, link);
  }

  // ----- The chain of links that the check follows

  const EVAL_LINKS := 255   // what path evaluation in the standard library follows
  const STAT_LINKS := 40    // what the kernel follows

  /** Cleaning a text by itself: ".." drops whatever name stands before it. */
  function CleanFrom(at: Path, parts: Parts): Path
    decreases |parts|
  {
    if parts == [] then at
    else CleanFrom(if IsDot(parts[0]) then at else if IsUp(parts[0]) then Up(at) else at + [parts[0]], parts[1..])
  }

  lemma {:induction false} CleanFromIsClean(at: Path, parts: Parts)
    requires IsClean(at)
    ensures IsClean(CleanFrom(at, parts))
    decreases |parts|
  {
    if parts != [] {
      CleanFromIsClean(if IsDot(parts[0]) then at else if IsUp(parts[0]) then Up(at) else at + [parts[0]], parts[1..]);
    }
  }

  /** A path with its directory resolved but its last component left alone. */
  function Canonical(fs: FileSystem, p: Path): Option<Path> {
    if p == [] then Some([])
    else
      var d := Resolve(fs, [], Parent(p), EVAL_LINKS);
      if d.Nowhere? then None else Some(d.path + [p[|p| - 1]])
  }

  /** What the link at p names, as the check reads it. */
  function Named(fs: FileSystem, p: Path): Path
    requires p != [] && p in fs && fs[p].Link?
  {
    CleanFrom(Base(p, fs[p].absolute), fs[p].target)
  }

  predicate IsLink(fs: FileSystem, p: Path) { p != [] && p in fs && fs[p].Link? }

  function Follow(fs: FileSystem, p: Path): Option<Path> {
    if IsLink(fs, p) then Canonical(fs, Named(fs, p)) else None
  }

  /** The k-th place on the chain that starts at a path. */
  function Chain(fs: FileSystem, start: Path, k: nat): Option<Path> {
    if k == 0 then Canonical(fs, start)
    else
      var p := Chain(fs, start, k - 1);
      if p.None? then None else Follow(fs, p.value)
  }

  ghost predicate Reaches(fs: FileSystem, start: Path, link: Path) { exists k: nat :: Chain(fs, start, k) == Some(link) }

  /** After a repeat the chain only visits what it has visited. */
  lemma {:induction false} ChainRepeats(fs: FileSystem, start: Path, j: nat, k: nat, m: nat)
    requires j < k && Chain(fs, start, k).Some? && Chain(fs, start, j) == Chain(fs, start, k)
    ensures exists i: nat :: i < k && Chain(fs, start, i) == Chain(fs, start, m)
  {
    hide Follow, Canonical;
    if m >= k {
      ChainRepeats(fs, start, j, k, m - 1);
      var i: nat :| i < k && Chain(fs, start, i) == Chain(fs, start, m - 1);
      assert Chain(fs, start, m) == Chain(fs, start, i + 1);
      if i + 1 == k { assert Chain(fs, start, j) == Chain(fs, start, m); }
    }
  }

  /** A chain that stopped does not go on. */
  lemma {:induction false} ChainStops(fs: FileSystem, start: Path, k: nat, m: nat)
    requires Chain(fs, start, k).None? && k <= m
    ensures Chain(fs, start, m).None?
  {
    hide Canonical, Named;
    if k < m { ChainStops(fs, start, k, m - 1); }
  }

  datatype Answer = Yes | No | Unresolvable

  /** The k-th place on the chain exists and is not a link, so the chain ends there. */
  predicate EndsAt(fs: FileSystem, start: Path, k: nat) {
    var p := Chain(fs, start, k);
    p.Some? && (p.value == [] || p.value in fs) && !At(fs, p.value).Link?
  }

  ghost predicate Ends(fs: FileSystem, start: Path) { exists k: nat :: EndsAt(fs, start, k) }

  predicate LinkAt(fs: FileSystem, start: Path, k: nat) {
    var p := Chain(fs, start, k);
    p.Some? && IsLink(fs, p.value)
  }

  function StableLink(fs: FileSystem, link: Path): Path { Canonical(fs, link).GetOr(link) }

  lemma NeverReached(fs: FileSystem, start: Path, link: Path, k: nat)
    requires forall i: nat :: i < k ==> Chain(fs, start, i) != Some(link)
    requires Chain(fs, start, k).None?
    ensures !Reaches(fs, start, link)
  {
    hide Canonical, Named;
    forall m: nat
      ensures Chain(fs, start, m) != Some(link)
    {
      if m >= k { ChainStops(fs, start, k, m); }
    }
  }

  lemma CycleNeverReaches(fs: FileSystem, start: Path, link: Path, j: nat, k: nat)
    requires j < k && Chain(fs, start, k).Some? && Chain(fs, start, j) == Chain(fs, start, k)
    requires forall i: nat :: i < k ==> Chain(fs, start, i) != Some(link)
    ensures !Reaches(fs, start, link)
  {
    hide Canonical, Named;
    forall m: nat
      ensures Chain(fs, start, m) != Some(link)
    {
      ChainRepeats(fs, start, j, k, m);
    }
  }

  /** Only links up to where the chain breaks off. */
  lemma NeverEnds(fs: FileSystem, start: Path, k: nat)
    requires forall i: nat :: i < k ==> LinkAt(fs, start, i)
    requires !EndsAt(fs, start, k) && Chain(fs, start, k + 1).None?
    ensures !Ends(fs, start)
  {
    hide Canonical, Named;
    forall m: nat
      ensures !EndsAt(fs, start, m)
    {
      if m > k { ChainStops(fs, start, k + 1, m); }
      if m < k { assert LinkAt(fs, start, m); }
    }
  }

  lemma CycleNeverEnds(fs: FileSystem, start: Path, j: nat, k: nat)
    requires j < k && Chain(fs, start, k).Some? && Chain(fs, start, j) == Chain(fs, start, k)
    requires forall i: nat :: i < k ==> LinkAt(fs, start, i)
    ensures !Ends(fs, start)
  {
    hide Canonical, Named;
    forall m: nat
      ensures !EndsAt(fs, start, m)
    {
      ChainRepeats(fs, start, j, k, m);
      var i: nat :| i < k && Chain(fs, start, i) == Chain(fs, start, m);
      assert LinkAt(fs, start, i);
    }
  }

  /** The walk ends on every file system, and says yes exactly when the chain meets the
      link, no exactly when it ends without having met it. */
  method SymlinkChainReferences(fs: FileSystem, path: Path, link0: Path) returns (r: Answer)
    ensures r == Yes <==> Reaches(fs, path, StableLink(fs, link0))
    ensures r == No <==> Ends(fs, path) && !Reaches(fs, path, StableLink(fs, link0))
  {
    hide Resolve, Named;
    var current := path;
    var link := StableLink(fs, link0);
    var visited: set<Path> := {};
    ghost var k: nat := 0;
    while true
      invariant visited <= fs.Keys
      invariant Chain(fs, path, k) == Canonical(fs, current)
      invariant forall i: nat :: i < k ==> Chain(fs, path, i) != Some(link)
      invariant forall i: nat :: i < k ==> LinkAt(fs, path, i)
      invariant forall p :: p in visited ==> exists i: nat :: i < k && Chain(fs, path, i) == Some(p)
      decreases fs.Keys - visited
    {
      var resolved := Canonical(fs, current);
      if resolved.None? {
        NeverReached(fs, path, link, k);
        NeverEnds(fs, path, k);
        return Unresolvable;
      }
      current := resolved.value;
      if current == link {
        return Yes;
      }
      if current in visited {
        ghost var j: nat :| j < k && Chain(fs, path, j) == Some(current);
        CycleNeverReaches(fs, path, link, j, k);
        CycleNeverEnds(fs, path, j, k);
        return Unresolvable;
      }
      assert Chain(fs, path, k) == Some(current);
      if current != [] && current !in fs {
        NeverReached(fs, path, link, k + 1);
        NeverEnds(fs, path, k);
        return Unresolvable;
      }
      if !At(fs, current).Link? {
        NeverReached(fs, path, link, k + 1);
        assert EndsAt(fs, path, k);
        return No;
      }
      visited := visited + {current};
      current := Named(fs, current);
      k := k + 1;
    }
  }

  lemma {:induction false} ChainShift(fs: FileSystem, start: Path, k: nat)
    requires LinkAt(fs, start, 0)
    ensures Chain(fs, start, k + 1) == Chain(fs, Named(fs, Chain(fs, start, 0).value), k)
  {
    hide Canonical, Named;
    if k > 0 { ChainShift(fs, start, k - 1); }
  }

  // ----- What retargeting does

  /** A link is no directory. */
  predicate Linkable(fs: FileSystem, link: Path) { link != [] && (link in fs ==> fs[link] != Directory) }

  /** Components are looked up as before where the changed link is not named. */
  lemma NextElsewhere(fs: FileSystem, at: Path, s: string, link: Path, node: Node)
    requires Linkable(fs, link) && !Next(fs, at, s).Stop? && !Names(at, s, link)
    ensures Next(fs[link := node], at, s) == Next(fs, at, s)
  {
    hide IsDot, IsUp;
  }

  lemma NextAtLink(fs: FileSystem, at: Path, s: string, link: Path, target: Parts)
    requires Linkable(fs, link) && (IsDirectory(fs, at) || !Next(fs, at, s).Stop?) && Names(at, s, link)
    ensures Next(fs[link := Link(true, target)], at, s) == Jump([], target)
  {
    hide IsDot, IsUp;
  }

  /** A resolution that does not pass through the link does not notice its change. */
  lemma {:induction false} Unaffected(fs: FileSystem, at: Path, rest: Parts, links: nat, link: Path, node: Node)
    requires Linkable(fs, link) && !Touches(fs, at, rest, links, link) && Resolve(fs, at, rest, links).Found?
    ensures Resolve(fs[link := node], at, rest, links) == Resolve(fs, at, rest, links)
    decreases links, |rest|
  {
    hide Next, Names;
    if rest != [] {
      NextElsewhere(fs, at, rest[0], link, node);
      match Next(fs, at, rest[0])
      case Walk(p) => Unaffected(fs, p, rest[1..], links, link, node);
      case Jump(base, target) => Unaffected(fs, base, target + rest[1..], links - 1, link, node);
    }
  }

  /** If the target's resolution passes through the link, then once the link points at the
      target, resolving the target comes round to the target again, for ever. */
  lemma {:induction false} GoesRound(fs: FileSystem, link: Path, target: Path, links: nat, n: nat, rest: Parts)
    requires Linkable(fs, link) && Touches(fs, [], target, links, link)
    ensures Resolve(fs[link := Link(true, target)], [], target + rest, n) == Nowhere
    decreases n, 1, links, |target|
  {
    ComesToLink(fs, link, target, links, [], target, links, n, rest);
  }

  lemma {:induction false} ComesToLink(fs: FileSystem, link: Path, target: Path, all: nat, at: Path, front: Parts, links: nat, n: nat, rest: Parts)
    requires Linkable(fs, link) && Touches(fs, [], target, all, link) && Touches(fs, at, front, links, link)
    ensures Resolve(fs[link := Link(true, target)], at, front + rest, n) == Nowhere
    decreases n, 0, links, |front|
  {
    hide Next, Names;
    var after := front[1..] + rest;
    assert (front + rest)[1..] == after;
    if Names(at, front[0], link) {
      NextAtLink(fs, at, front[0], link, target);
      if n > 0 { GoesRound(fs, link, target, all, n - 1, after); }
    } else {
      NextElsewhere(fs, at, front[0], link, Link(true, target));
      match Next(fs, at, front[0])
      case Walk(p) => ComesToLink(fs, link, target, all, p, front[1..], links, n, rest);
      case Jump(base, t) =>
        if n > 0 {
          assert t + after == (t + front[1..]) + rest;
          ComesToLink(fs, link, target, all, base, t + front[1..], links - 1, n - 1, rest);
        }
    }
  }

  predicate SocketFound(fs: FileSystem, r: Resolved) { r.Found? && r.path in fs && fs[r.path] == Socket }

  lemma DeadEnd(fs: FileSystem, at: Path, rest: Parts, links: nat)
    requires !IsDirectory(fs, at) && Resolve(fs, at, rest, links).Found?
    ensures rest == []
  {
  }

  lemma UpIsDirectory(fs: FileSystem, at: Path)
    requires TreeOk(fs) && IsDirectory(fs, at)
    ensures IsDirectory(fs, Up(at))
  {
  }

  /** A socket that a resolution ends at has been passed through. */
  lemma {:induction false} EndNotTouched(fs: FileSystem, at: Path, rest: Parts, links: nat, link: Path)
    requires TreeOk(fs) && IsDirectory(fs, at) && !Touches(fs, at, rest, links, link)
    requires SocketFound(fs, Resolve(fs, at, rest, links))
    ensures Resolve(fs, at, rest, links).path != link
    decreases links, |rest|
  {
    hide IsDot, IsUp;
    if rest == [] {
      return;
    }
    UpIsDirectory(fs, at);
    match Next(fs, at, rest[0])
    case Walk(p) =>
      if IsDirectory(fs, p) {
        EndNotTouched(fs, p, rest[1..], links, link);
      } else {
        DeadEnd(fs, p, rest[1..], links);
      }
    case Jump(base, target) => EndNotTouched(fs, base, target + rest[1..], links - 1, link);
  }

  /** Once the link points at a socket, nothing can be reached in it. */
  lemma {:induction false} Blocked(fs: FileSystem, link: Path, target: Parts, all: nat, at: Path, front: Parts, links: nat, n: nat, rest: Parts)
    requires TreeOk(fs) && Linkable(fs, link) && Touches(fs, at, front, links, link) && rest != []
    requires SocketFound(fs, Resolve(fs, [], target, all))
    ensures Resolve(fs[link := Link(true, target)], at, front + rest, n) == Nowhere
    decreases n, links, |front|
  {
    hide Next, Names;
    var after, fs' := front[1..] + rest, fs[link := Link(true, target)];
    assert (front + rest)[1..] == after;
    if Names(at, front[0], link) {
      NextAtLink(fs, at, front[0], link, target);
      if n > 0 { NotBeyond(fs, link, target, all, n - 1, after); }
    } else {
      NextElsewhere(fs, at, front[0], link, Link(true, target));
      match Next(fs, at, front[0])
      case Walk(p) => Blocked(fs, link, target, all, p, front[1..], links, n, rest);
      case Jump(base, t) =>
        if n > 0 {
          assert t + after == (t + front[1..]) + rest;
          Blocked(fs, link, target, all, base, t + front[1..], links - 1, n - 1, rest);
        }
    }
  }

  lemma NotBeyond(fs: FileSystem, link: Path, target: Parts, all: nat, n: nat, rest: Parts)
    requires TreeOk(fs) && Linkable(fs, link) && rest != [] && SocketFound(fs, Resolve(fs, [], target, all))
    ensures Resolve(fs[link := Link(true, target)], [], target + rest, n) == Nowhere
  {
    var fs' := fs[link := Link(true, target)];
    if Touches(fs, [], target, all, link) {
      GoesRound(fs, link, target, all, n, rest);
    } else {
      Unaffected(fs, [], target, all, link, Link(true, target));
      EndNotTouched(fs, [], target, all, link);
      LinksShift(fs', [], target, all, n);
      ResolveConcat(fs', [], target, rest, n, link);
    }
  }

  /** What a client finds that opens the path. */
  predicate Opens(fs: FileSystem, p: Path) { SocketFound(fs, Resolve(fs, [], p, STAT_LINKS)) }

  /** How many links the kernel follows on the way, if they are not too many. */
  function LinksUsed(fs: FileSystem, p: Path): int {
    match Resolve(fs, [], p, STAT_LINKS)
    case Found(_, left) => STAT_LINKS - left
    case Nowhere => STAT_LINKS
  }

  predicate DirectoryResolves(fs: FileSystem, p: Path) {
    p != [] && var d := Resolve(fs, [], Parent(p), STAT_LINKS); d.Found? && IsDirectory(fs, d.path)
  }

  /** Exactly when a retargeted link works for a client that opens its path: neither the link's
      directory nor the target, a socket, was reached through the link itself, and the links on
      both ways, with the new one, are no more than the kernel follows. */
  lemma RetargetedLinkWorks(fs: FileSystem, p: Path, target: Path)
    requires TreeOk(fs) && IsClean(p) && DirectoryResolves(fs, p) && Linkable(fs, StableLink(fs, p))
    requires SocketFound(fs, Resolve(fs, [], target, STAT_LINKS))
    ensures var link := StableLink(fs, p);
            Opens(fs[link := Link(true, target)], p) <==>
            && !Touches(fs, [], Parent(p), STAT_LINKS, link) && !Touches(fs, [], target, STAT_LINKS, link)
            && LinksUsed(fs, Parent(p)) + 1 + LinksUsed(fs, target) <= STAT_LINKS
  {
    hide Next, TreeOk;
    var front, last := Parent(p), p[|p| - 1];
    assert p == front + [last];
    var d := Resolve(fs, [], front, STAT_LINKS);
    LinksShift(fs, [], front, STAT_LINKS, EVAL_LINKS);
    var link := d.path + [last];
    assert link == StableLink(fs, p);
    var fs' := fs[link := Link(true, target)];
    if Touches(fs, [], front, STAT_LINKS, link) {
      Blocked(fs, link, target, STAT_LINKS, [], front, STAT_LINKS, STAT_LINKS, [last]);
    } else {
      Unaffected(fs, [], front, STAT_LINKS, link, Link(true, target));
      ResolveConcat(fs', [], front, [last], STAT_LINKS, link);
      NextAtLink(fs, d.path, last, link, target);
      assert target + [last][1..] == target;
      if d.left > 0 { TargetFound(fs, link, target, d.left - 1); }
      LinksShift(fs, [], target, STAT_LINKS, STAT_LINKS);
    }
  }

  lemma TargetFound(fs: FileSystem, link: Path, target: Path, n: nat)
    requires TreeOk(fs) && Linkable(fs, link) && SocketFound(fs, Resolve(fs, [], target, STAT_LINKS))
    ensures var fs' := fs[link := Link(true, target)];
            SocketFound(fs', Resolve(fs', [], target, n)) <==>
            !Touches(fs, [], target, STAT_LINKS, link) && LinksUsed(fs, target) <= n
  {
    var fs' := fs[link := Link(true, target)];
    if Touches(fs, [], target, STAT_LINKS, link) {
      GoesRound(fs, link, target, STAT_LINKS, n, []);
      assert target + [] == target;
    } else {
      Unaffected(fs, [], target, STAT_LINKS, link, Link(true, target));
      EndNotTouched(fs, [], target, STAT_LINKS, link);
      LinksShift(fs', [], target, STAT_LINKS, n);
    }
  }

  // ----- What the chain check catches

  /** No ".." stands after a name, so that cleaning the text cannot change its meaning. */
  predicate Straight(parts: Parts) {
    forall i, j :: 0 <= i < j < |parts| && IsName(parts[i]) ==> !IsUp(parts[j])
  }

  ghost predicate ChainStraight(fs: FileSystem, start: Path) {
    forall k: nat :: LinkAt(fs, start, k) ==> Straight(fs[Chain(fs, start, k).value].target)
  }

  function WithoutDots(parts: Parts): Parts {
    if parts == [] then [] else (if IsDot(parts[0]) then [] else [parts[0]]) + WithoutDots(parts[1..])
  }

  predicate NoUps(parts: Parts) { forall i :: 0 <= i < |parts| ==> !IsUp(parts[i]) }

  lemma {:induction false} CleanFromNames(at: Path, parts: Parts)
    requires NoUps(parts)
    ensures CleanFrom(at, parts) == at + WithoutDots(parts)
    decreases |parts|
  {
    if parts != [] {
      CleanFromNames(if IsDot(parts[0]) then at else at + [parts[0]], parts[1..]);
    }
  }

  /** Dots on a way that leads somewhere can be left out. */
  lemma {:induction false} DotsDropped(fs: FileSystem, at: Path, parts: Parts, links: nat, link: Path)
    requires NoUps(parts) && Resolve(fs, at, parts, links).Found?
    ensures Resolve(fs, at, WithoutDots(parts), links) == Resolve(fs, at, parts, links)
    ensures !IsDirectory(fs, link) ==> Touches(fs, at, WithoutDots(parts), links, link) == Touches(fs, at, parts, links, link)
    decreases links, |parts|
  {
    hide IsDot, IsUp;
    if parts != [] {
      var rest := parts[1..];
      var names := WithoutDots(parts);
      assert IsDot(parts[0]) ==> names == WithoutDots(rest);
      assert !IsDot(parts[0]) ==> names[0] == parts[0] && names[1..] == WithoutDots(rest);
      match Next(fs, at, parts[0])
      case Walk(p) => DotsDropped(fs, p, rest, links, link);
      case Jump(base, target) =>
        ResolveConcat(fs, base, target, rest, links - 1, link);
        ResolveConcat(fs, base, target, WithoutDots(rest), links - 1, link);
        var r := Resolve(fs, base, target, links - 1);
        LinksShift(fs, base, target, links - 1, 0);
        DotsDropped(fs, r.path, rest, r.left, link);
    }
  }

  /** Cleaning a straight text that leads somewhere does not change where. */
  lemma {:induction false} CleanResolves(fs: FileSystem, at: Path, parts: Parts, links: nat, link: Path)
    requires TreeOk(fs) && IsDirectory(fs, at) && !IsDirectory(fs, link) && Straight(parts)
    requires Resolve(fs, at, parts, links).Found?
    ensures Resolve(fs, [], CleanFrom(at, parts), links) == Resolve(fs, at, parts, links)
    ensures Touches(fs, [], CleanFrom(at, parts), links, link) == Touches(fs, at, parts, links, link)
    decreases |parts|
  {
    Stay(fs, at, links, link);
    if parts != [] && IsName(parts[0]) {
      assert NoUps(parts);
      CleanFromNames(at, parts);
      DotsDropped(fs, at, parts, links, link);
      ResolveConcat(fs, [], at, WithoutDots(parts), links, link);
    } else if parts != [] {
      CleanResolves(fs, if IsDot(parts[0]) then at else Up(at), parts[1..], links, link);
    }
  }

  predicate LeadsToDirectory(fs: FileSystem, p: Path) {
    var r := Resolve(fs, [], p, STAT_LINKS); r.Found? && IsDirectory(fs, r.path)
  }

  lemma DirectoryAtLink(fs: FileSystem, at: Path, rest: Parts, links: nat, link: Path)
    requires TreeOk(fs) && Linkable(fs, link) && links <= STAT_LINKS && rest != [] && Names(at, rest[0], link)
    requires Resolve(fs, at, rest, links).Found? && IsDirectory(fs, Resolve(fs, at, rest, links).path)
    ensures LeadsToDirectory(fs, link)
  {
    hide IsDot, IsUp, TreeOk;
    assert link[|link| - 1] == rest[0] && Parent(link) == at;
    match Next(fs, at, rest[0])
    case Walk(p) => DeadEnd(fs, p, rest[1..], links);
    case Jump(base, target) =>
      ResolveConcat(fs, base, target, rest[1..], links - 1, link);
      var r := Resolve(fs, base, target, links - 1);
      if !IsDirectory(fs, r.path) { DeadEnd(fs, r.path, rest[1..], r.left); }
      FollowLink(fs, link, links);
      LinksShift(fs, [], link, links, STAT_LINKS);
  }

  /** A directory reached through the link is a directory the link leads to. */
  lemma {:induction false} DirectoryThroughLink(fs: FileSystem, at: Path, rest: Parts, links: nat, link: Path)
    requires TreeOk(fs) && Linkable(fs, link) && links <= STAT_LINKS && Touches(fs, at, rest, links, link)
    requires Resolve(fs, at, rest, links).Found? && IsDirectory(fs, Resolve(fs, at, rest, links).path)
    ensures LeadsToDirectory(fs, link)
    decreases links, |rest|
  {
    hide Next, Names, TreeOk, LeadsToDirectory;
    if Names(at, rest[0], link) {
      DirectoryAtLink(fs, at, rest, links, link);
    } else {
      match Next(fs, at, rest[0])
      case Walk(p) => DirectoryThroughLink(fs, p, rest[1..], links, link);
      case Jump(base, target) => DirectoryThroughLink(fs, base, target + rest[1..], links - 1, link);
    }
  }

  /** The walk and the kernel agree on a path's directory. */
  lemma FrontRead(fs: FileSystem, target: Path, links: nat, link: Path)
    requires target != [] && links <= EVAL_LINKS && Resolve(fs, [], target, links).Found?
    ensures var d, last := Resolve(fs, [], Parent(target), links), target[|target| - 1];
            && d.Found? && IsDirectory(fs, d.path) && d.left <= links
            && Chain(fs, target, 0) == Some(d.path + [last])
            && Resolve(fs, [], target, links) == Resolve(fs, d.path, [last], d.left)
            && Touches(fs, [], target, links, link) == (Touches(fs, [], Parent(target), links, link) || Touches(fs, d.path, [last], d.left, link))
  {
    var front, last := Parent(target), target[|target| - 1];
    assert target == front + [last];
    ResolveConcat(fs, [], front, [last], links, link);
    LinksShift(fs, [], front, links, EVAL_LINKS);
    assert Next(fs, Resolve(fs, [], front, links).path, last) != Stop;
  }

  /** The last component of a path: a link's text is followed from the link's own place. */
  lemma LastHop(fs: FileSystem, dir: Path, last: string, links: nat, link: Path)
    requires IsName(last) && Resolve(fs, dir, [last], links).Found?
    ensures var p := dir + [last];
            if IsLink(fs, p) then
              && links > 0 && IsDirectory(fs, Base(p, fs[p].absolute))
              && Resolve(fs, dir, [last], links) == Resolve(fs, Base(p, fs[p].absolute), fs[p].target, links - 1)
              && (Touches(fs, dir, [last], links, link) <==> p == link || Touches(fs, Base(p, fs[p].absolute), fs[p].target, links - 1, link))
            else p in fs && (Touches(fs, dir, [last], links, link) <==> p == link)
  {
    hide IsDot, IsUp;
    var p := dir + [last];
    assert [last][1..] == [] && Parent(p) == dir;
    if IsLink(fs, p) { assert fs[p].target + [last][1..] == fs[p].target; }
  }

  lemma NamedIsClean(fs: FileSystem, p: Path)
    requires TreeOk(fs) && IsLink(fs, p)
    ensures IsClean(Named(fs, p))
  {
    CleanFromIsClean(Base(p, fs[p].absolute), fs[p].target);
  }

  lemma NamedChain(fs: FileSystem, target: Path)
    requires LinkAt(fs, target, 0) && ChainStraight(fs, target)
    ensures ChainStraight(fs, Named(fs, Chain(fs, target, 0).value))
  {
    hide Named, Follow, Canonical, Straight;
    var t := Named(fs, Chain(fs, target, 0).value);
    forall k: nat | LinkAt(fs, t, k)
      ensures Straight(fs[Chain(fs, t, k).value].target)
    {
      ChainShift(fs, target, k);
      assert LinkAt(fs, target, k + 1);
    }
  }

  /** One link of the chain: what it names is where the kernel goes. */
  lemma LinkRead(fs: FileSystem, target: Path, links: nat, link: Path)
    requires TreeOk(fs) && links <= EVAL_LINKS && IsClean(target) && ChainStraight(fs, target) && !IsDirectory(fs, link)
    requires LinkAt(fs, target, 0) && target != [] && Resolve(fs, [], target, links).Found?
    ensures var p, d := Chain(fs, target, 0).value, Resolve(fs, [], Parent(target), links);
            && d.Found? && 0 < d.left <= links && IsClean(Named(fs, p)) && ChainStraight(fs, Named(fs, p))
            && Resolve(fs, [], Named(fs, p), d.left - 1) == Resolve(fs, [], target, links)
            && (Touches(fs, [], target, links, link) <==>
                  Touches(fs, [], Parent(target), links, link) || p == link || Touches(fs, [], Named(fs, p), d.left - 1, link))
  {
    hide Resolve, Touches, TreeOk, CleanFrom, Canonical, Straight;
    FrontRead(fs, target, links, link);
    var d, last := Resolve(fs, [], Parent(target), links), target[|target| - 1];
    var p := d.path + [last];
    LastHop(fs, d.path, last, d.left, link);
    CleanResolves(fs, Base(p, fs[p].absolute), fs[p].target, d.left - 1, link);
    NamedIsClean(fs, p);
    NamedChain(fs, target);
  }

  /** If the chain check does not meet the link and the target still resolves through it,
      the link was used as a directory on the way, or a text on the chain was not straight. */
  lemma {:induction false} CheckMissesOnlyDirectories(fs: FileSystem, target: Path, links: nat, link: Path)
    requires TreeOk(fs) && Linkable(fs, link) && links <= STAT_LINKS && IsClean(target) && ChainStraight(fs, target)
    requires !Reaches(fs, target, link) && Touches(fs, [], target, links, link)
    requires Resolve(fs, [], target, links).Found?
    ensures LeadsToDirectory(fs, link)
    decreases links
  {
    hide Resolve, Chain, TreeOk, ChainStraight, LeadsToDirectory;
    NotEmptyTouched(fs, target, links, link);
    FrontRead(fs, target, links, link);
    var d, last := Resolve(fs, [], Parent(target), links), target[|target| - 1];
    var p := d.path + [last];
    LastHop(fs, d.path, last, d.left, link);
    assert Chain(fs, target, 0) != Some(link);
    if Touches(fs, [], Parent(target), links, link) {
      DirectoryThroughLink(fs, [], Parent(target), links, link);
    } else {
      assert LinkAt(fs, target, 0);
      LinkRead(fs, target, links, link);
      NotReachedFurther(fs, target, link);
      CheckMissesOnlyDirectories(fs, Named(fs, p), d.left - 1, link);
    }
  }

  lemma NotEmptyTouched(fs: FileSystem, target: Path, links: nat, link: Path)
    requires Touches(fs, [], target, links, link)
    ensures target != []
  {
  }

  lemma NotReachedFurther(fs: FileSystem, target: Path, link: Path)
    requires LinkAt(fs, target, 0) && !Reaches(fs, target, link)
    ensures !Reaches(fs, Named(fs, Chain(fs, target, 0).value), link)
  {
    hide Canonical, Named;
    var t := Named(fs, Chain(fs, target, 0).value);
    forall k: nat
      ensures Chain(fs, t, k) != Some(link)
    {
      ChainShift(fs, target, k);
    }
  }

  lemma NoEntry(fs: FileSystem)
    requires TreeOk(fs)
    ensures !IsDirectory(fs, [""])
  {
    var odd := [""];
    assert !IsClean(odd) by { assert !IsName(odd[0]); }
  }

  /** What the kernel resolves over straight texts, the walk follows to its end. */
  lemma {:induction false} ResolvedEnds(fs: FileSystem, target: Path, links: nat)
    requires TreeOk(fs) && links <= EVAL_LINKS && IsClean(target) && ChainStraight(fs, target)
    requires Resolve(fs, [], target, links).Found?
    ensures Ends(fs, target)
    decreases links
  {
    hide Resolve, Touches, TreeOk, ChainStraight, Named, Chain, EndsAt, Ends;
    if target == [] {
      RootEnds(fs);
      return;
    }
    NoEntry(fs);
    FrontRead(fs, target, links, [""]);
    var d, last := Resolve(fs, [], Parent(target), links), target[|target| - 1];
    var p := d.path + [last];
    LastHop(fs, d.path, last, d.left, [""]);
    if IsLink(fs, p) {
      LinkRead(fs, target, links, [""]);
      ResolvedEnds(fs, Named(fs, p), d.left - 1);
      EndsFurther(fs, target);
    } else {
      EndsAtOnce(fs, target);
    }
  }

  lemma RootEnds(fs: FileSystem)
    ensures Ends(fs, [])
  {
    assert EndsAt(fs, [], 0);
  }

  lemma EndsAtOnce(fs: FileSystem, target: Path)
    requires var p := Chain(fs, target, 0); p.Some? && p.value in fs && !fs[p.value].Link? && p.value != []
    ensures Ends(fs, target)
  {
    assert EndsAt(fs, target, 0);
  }

  lemma EndsFurther(fs: FileSystem, target: Path)
    requires LinkAt(fs, target, 0) && Ends(fs, Named(fs, Chain(fs, target, 0).value))
    ensures Ends(fs, target)
  {
    hide Canonical, Named;
    var k: nat :| EndsAt(fs, Named(fs, Chain(fs, target, 0).value), k);
    ChainShift(fs, target, k);
    assert EndsAt(fs, target, k + 1);
  }

  // ----- The refresh

  /** Directories were made, and nothing else changed. */
  ghost predicate Grown(fs: FileSystem, made: FileSystem) {
    && (forall p :: p in fs ==> p in made && made[p] == fs[p])
    && (forall p :: p in made && p !in fs ==> made[p] == Directory)
  }

  lemma GrownNext(fs: FileSystem, made: FileSystem, at: Path, name: string)
    requires Grown(fs, made) && !Next(fs, at, name).Stop?
    ensures Next(made, at, name) == Next(fs, at, name)
  {
    hide IsDot, IsUp;
  }

  lemma {:induction false} GrownResolves(fs: FileSystem, made: FileSystem, at: Path, rest: Parts, links: nat, link: Path)
    requires Grown(fs, made) && Resolve(fs, at, rest, links).Found?
    ensures Resolve(made, at, rest, links) == Resolve(fs, at, rest, links)
    ensures Touches(made, at, rest, links, link) == Touches(fs, at, rest, links, link)
    decreases links, |rest|
  {
    hide Next, Names;
    if rest != [] {
      GrownNext(fs, made, at, rest[0]);
      match Next(fs, at, rest[0])
      case Walk(p) => GrownResolves(fs, made, p, rest[1..], links, link);
      case Jump(base, target) => GrownResolves(fs, made, base, target + rest[1..], links - 1, link);
    }
  }

  /** The private directories exist in `made`. Either they existed before and nothing was made,
      or the link's directory was just made and is empty. */
  ghost predicate DirectoriesMade(fs: FileSystem, made: FileSystem, socketPath: Path) {
    && TreeOk(fs) && TreeOk(made) && Grown(fs, made) && DirectoryResolves(made, socketPath)
    && if DirectoryResolves(fs, socketPath) then made == fs else StableLink(made, socketPath) !in made
  }

  /** The path names an existing socket, and the walk over its links ends without having met the
      stable link. */
  ghost predicate Usable(fs: FileSystem, socketPath: Path, target: Path) {
    && SocketFound(fs, Resolve(fs, [], target, STAT_LINKS))
    && Ends(fs, target) && !Reaches(fs, target, StableLink(fs, socketPath))
  }

  /** The checks of a refresh passed, and the link was then replaced. */
  ghost predicate Accepted(fs: FileSystem, made: FileSystem, socketPath: Path, target: Path) {
    && Usable(fs, socketPath, target) && IsClean(socketPath) && IsClean(target)
    && DirectoriesMade(fs, made, socketPath) && Linkable(made, StableLink(made, socketPath))
  }

  /** The new link, its directory and its target need no more links than the kernel follows. */
  predicate FewLinks(made: FileSystem, socketPath: Path, target: Path)
    requires socketPath != []
  {
    LinksUsed(made, Parent(socketPath)) + 1 + LinksUsed(made, target) <= STAT_LINKS
  }

  /** After an accepted refresh a client that opens the stable path finds a socket exactly when
      neither the link's directory nor the target resolved through the link, and the links on
      the way are few enough. */
  lemma AcceptedLinkWorks(fs: FileSystem, made: FileSystem, socketPath: Path, target: Path)
    requires Accepted(fs, made, socketPath, target)
    ensures var link := StableLink(made, socketPath);
            Opens(made[link := Link(true, target)], socketPath) <==>
            && !Touches(made, [], Parent(socketPath), STAT_LINKS, link) && !Touches(fs, [], target, STAT_LINKS, link)
            && FewLinks(made, socketPath, target)
  {
    var link := StableLink(made, socketPath);
    GrownResolves(fs, made, [], target, STAT_LINKS, link);
    RetargetedLinkWorks(made, socketPath, target);
  }

  /** ... in particular, with few enough links, whenever the link did not lead to a directory
      before and no text on the chain has ".." after a name. */
  lemma AcceptedUnlessDirectory(fs: FileSystem, made: FileSystem, socketPath: Path, target: Path)
    requires Accepted(fs, made, socketPath, target)
    requires !LeadsToDirectory(fs, StableLink(fs, socketPath)) && ChainStraight(fs, target)
    ensures Opens(made[StableLink(made, socketPath) := Link(true, target)], socketPath) <==> FewLinks(made, socketPath, target)
  {
    var link := StableLink(made, socketPath);
    AcceptedLinkWorks(fs, made, socketPath, target);
    if DirectoryResolves(fs, socketPath) {
      if Touches(made, [], Parent(socketPath), STAT_LINKS, link) {
        DirectoryThroughLink(made, [], Parent(socketPath), STAT_LINKS, link);
      }
      if Touches(fs, [], target, STAT_LINKS, link) {
        CheckMissesOnlyDirectories(fs, target, STAT_LINKS, link);
      }
    } else {
      if Touches(made, [], Parent(socketPath), STAT_LINKS, link) {
        TouchedIsThere(made, [], Parent(socketPath), STAT_LINKS, link);
      }
      if Touches(fs, [], target, STAT_LINKS, link) {
        TouchedIsThere(fs, [], target, STAT_LINKS, link);
      }
    }
  }

  lemma {:induction false} TouchedIsThere(fs: FileSystem, at: Path, rest: Parts, links: nat, link: Path)
    requires Touches(fs, at, rest, links, link)
    ensures link in fs
    decreases links, |rest|
  {
    hide IsDot, IsUp;
    if !Names(at, rest[0], link) {
      match Next(fs, at, rest[0])
      case Walk(p) => TouchedIsThere(fs, p, rest[1..], links, link);
      case Jump(base, target) => TouchedIsThere(fs, base, target + rest[1..], links - 1, link);
    }
  }

  /** A stable link a/s that leads to a directory d holding a socket r. */
  ghost function LinkToDirectory(a: string, s: string, d: string, r: string): FileSystem {
    map[[a] := Directory, [a, s] := Link(true, [d]), [d] := Directory, [d, r] := Socket]
  }

  /** In it a refresh accepts the socket named through the link, a/s/r, and leaves a link
      that leads nowhere. */
  lemma SocketNamedThroughLink(a: string, s: string, d: string, r: string)
    requires a != d && IsName(a) && IsName(s) && IsName(d) && IsName(r)
    ensures var fs, link, target := LinkToDirectory(a, s, d, r), [a, s], [a, s, r];
            Accepted(fs, fs, link, target) && !Opens(fs[link := Link(true, target)], link)
  {
    hide IsDot, IsUp, LinkToDirectory, Next, Touches, TreeOk;
    var fs, link, target := LinkToDirectory(a, s, d, r), [a, s], [a, s, r];
    LinkToDirectorySteps(a, s, d, r);
    LinkToDirectoryResolves(a, s, d, r, STAT_LINKS);
    LinkToDirectoryResolves(a, s, d, r, EVAL_LINKS);
    assert Parent(target) == link && [d] + [r] == [d, r] && [d, r][0] != link[0];
    CanonicalIn(fs, a, s);
    assert StableLink(fs, link) == link && Chain(fs, target, 0) == Some([d, r]);
    assert EndsAt(fs, target, 0) && Chain(fs, target, 1) == None;
    NeverReached(fs, target, link, 1);
    DirectoryAt(fs, link, a);
    AcceptedLinkWorks(fs, fs, link, target);
  }

  lemma LinkToDirectorySteps(a: string, s: string, d: string, r: string)
    requires a != d && IsName(a) && IsName(s) && IsName(d) && IsName(r)
    ensures var fs := LinkToDirectory(a, s, d, r);
            && TreeOk(fs) && Next(fs, [], a) == Walk([a]) && Next(fs, [a], s) == Jump([], [d])
            && Next(fs, [], d) == Walk([d]) && Next(fs, [d], r) == Walk([d, r])
            && [a] in fs && fs[[a]] == Directory && [a, s] in fs && fs[[a, s]] == Link(true, [d]) && [d, r] in fs && fs[[d, r]] == Socket
  {
    hide IsDot, IsUp;
    var fs := LinkToDirectory(a, s, d, r);
    assert [a][0] != [d][0] && [a, s][0] != [d, r][0] && Parent([a, s]) == [a] && Parent([d, r]) == [d];
    NextNamed(fs, [], a, [a]);
    NextNamed(fs, [a], s, [a, s]);
    NextNamed(fs, [], d, [d]);
    NextNamed(fs, [d], r, [d, r]);
  }

  lemma LinkToDirectoryResolves(a: string, s: string, d: string, r: string, n: nat)
    requires a != d && IsName(a) && IsName(s) && IsName(d) && IsName(r) && n >= 1
    ensures var fs := LinkToDirectory(a, s, d, r);
            && Resolve(fs, [], [a], n) == Found([a], n)
            && Resolve(fs, [], [a, s], n) == Found([d], n - 1) && Resolve(fs, [], [a, s, r], n) == Found([d, r], n - 1)
            && Touches(fs, [], [a, s, r], n, [a, s])
  {
    hide Next, LinkToDirectory, TreeOk, IsDot, IsUp;
    var fs := LinkToDirectory(a, s, d, r);
    LinkToDirectorySteps(a, s, d, r);
    assert [a, s, r][1..] == [s, r] && [s, r][1..] == [r] && [a, s][1..] == [s] && [a][1..] == [] && [s][1..] == [] && [r][1..] == [];
    assert [d] + [r] == [d, r] && [d, r][1..] == [r] && [d] + [] == [d] && [d][1..] == [];
    assert Resolve(fs, [d], [r], n - 1) == Found([d, r], n - 1);
    assert Resolve(fs, [], [d, r], n - 1) == Found([d, r], n - 1);
    assert Resolve(fs, [a], [s, r], n) == Found([d, r], n - 1);
    assert Resolve(fs, [], [d], n - 1) == Found([d], n - 1);
    assert Resolve(fs, [a], [s], n) == Found([d], n - 1);
    assert Names([a], s, [a, s]) && Touches(fs, [a], [s, r], n, [a, s]);
  }

  /** A stable link a/s that leads to a live socket r; a link t with the text /p/q/../s, where
      p/q is a link to the directory a/d and p/s, if there, a plain file. */
  ghost function ClimbingTarget(a: string, s: string, d: string, p: string, q: string, r: string, t: string, decoy: bool): FileSystem {
    var fs := map[[a] := Directory, [a, s] := Link(true, [r]), [a, d] := Directory, [r] := Socket,
                  [p] := Directory, [p, q] := Link(true, [a, d]), [t] := Link(true, [p, q, "..", s])];
    if decoy then fs[[p, s] := File] else fs
  }

  predicate Apart(a: string, s: string, d: string, p: string, q: string, r: string, t: string) {
    && IsName(a) && IsName(s) && IsName(d) && IsName(p) && IsName(q) && IsName(r) && IsName(t)
    && a != p && a != r && a != t && p != r && p != t && r != t && s != d && s != q
  }

  lemma ClimbingTree(a: string, s: string, d: string, p: string, q: string, r: string, t: string, decoy: bool)
    requires Apart(a, s, d, p, q, r, t)
    ensures TreeOk(ClimbingTarget(a, s, d, p, q, r, t, decoy))
  {
    hide IsDot, IsUp;
    var fs := ClimbingTarget(a, s, d, p, q, r, t, decoy);
    assert Parent([a, s]) == [a] && Parent([a, d]) == [a] && Parent([p, q]) == [p] && Parent([p, s]) == [p];
    forall x | x in fs
      ensures IsClean(x) && x != [] && IsDirectory(fs, Parent(x))
    {
      assert |x| == 1 || x == [a, s] || x == [a, d] || x == [p, q] || x == [p, s];
    }
  }

  lemma ClimbingEntries(a: string, s: string, d: string, p: string, q: string, r: string, t: string, decoy: bool)
    requires Apart(a, s, d, p, q, r, t)
    ensures var fs := ClimbingTarget(a, s, d, p, q, r, t, decoy);
            && [a] in fs && fs[[a]] == Directory && [p] in fs && fs[[p]] == Directory && [r] in fs && fs[[r]] == Socket
            && [a, d] in fs && fs[[a, d]] == Directory && [a, s] in fs && fs[[a, s]] == Link(true, [r])
            && [p, q] in fs && fs[[p, q]] == Link(true, [a, d]) && [t] in fs && fs[[t]] == Link(true, [p, q, "..", s])
            && (if decoy then [p, s] in fs && fs[[p, s]] == File else [p, s] !in fs)
  {
    assert [a, s][1] != [a, d][1] && [p, s][1] != [p, q][1] && [a, s][0] != [p, q][0] && [a, s][0] != [p, s][0];
    assert [a, d][0] != [p, q][0] && [a, d][0] != [p, s][0];
    assert [a][0] != [p][0] && [a][0] != [r][0] && [a][0] != [t][0] && [p][0] != [r][0] && [p][0] != [t][0] && [r][0] != [t][0];
  }

  lemma NextNamed(fs: FileSystem, at: Path, name: string, to: Path)
    requires IsDirectory(fs, at) && IsName(name) && to == at + [name] && to in fs
    ensures Next(fs, at, name) == if fs[to].Link? then Jump(if fs[to].absolute then [] else at, fs[to].target) else Walk(to)
  {
    assert Parent(to) == at;
  }

  lemma ClimbingSteps(a: string, s: string, d: string, p: string, q: string, r: string, t: string, decoy: bool)
    requires Apart(a, s, d, p, q, r, t)
    ensures var fs := ClimbingTarget(a, s, d, p, q, r, t, decoy);
            && Next(fs, [], t) == Jump([], [p, q, "..", s]) && Next(fs, [], p) == Walk([p])
            && Next(fs, [p], q) == Jump([], [a, d]) && Next(fs, [], a) == Walk([a]) && Next(fs, [a], d) == Walk([a, d])
            && Next(fs, [a, d], "..") == Walk([a]) && Next(fs, [a], s) == Jump([], [r]) && Next(fs, [], r) == Walk([r])
  {
    hide ClimbingTarget, IsDot, IsUp;
    var fs := ClimbingTarget(a, s, d, p, q, r, t, decoy);
    ClimbingEntries(a, s, d, p, q, r, t, decoy);
    NextNamed(fs, [], t, [t]);
    NextNamed(fs, [], p, [p]);
    NextNamed(fs, [p], q, [p, q]);
    NextNamed(fs, [], a, [a]);
    NextNamed(fs, [a], d, [a, d]);
    NextNamed(fs, [a], s, [a, s]);
    NextNamed(fs, [], r, [r]);
    NextClimbs(fs, [a, d]);
    assert Up([a, d]) == [a];
  }

  lemma NextClimbs(fs: FileSystem, at: Path)
    requires IsDirectory(fs, at)
    ensures Next(fs, at, "..") == Walk(Up(at))
  {
  }

  lemma ClimbingResolves(a: string, s: string, d: string, p: string, q: string, r: string, t: string, decoy: bool, n: nat)
    requires Apart(a, s, d, p, q, r, t) && n >= 3
    ensures var fs := ClimbingTarget(a, s, d, p, q, r, t, decoy);
            Resolve(fs, [], [t], n) == Found([r], n - 3) && Touches(fs, [], [t], n, [a, s]) && Resolve(fs, [], [a, s], n) == Found([r], n - 1)
  {
    hide Next, ClimbingTarget, TreeOk;
    var fs, text := ClimbingTarget(a, s, d, p, q, r, t, decoy), [p, q, "..", s];
    ClimbingSteps(a, s, d, p, q, r, t, decoy);
    var up: string := "..";
    assert [t][1..] == [] && text + [] == text && text[1..] == [q, up, s] && [q, up, s][1..] == [up, s];
    assert [up, s][1..] == [s] && [s][1..] == [] && [r] + [] == [r] && [r][1..] == [] && [a, s][1..] == [s];
    assert [a, d] + [up, s] == [a, d, up, s] && [a, d, up, s][1..] == [d, up, s] && [d, up, s][1..] == [up, s];
    assert Resolve(fs, [], [r], n - 1) == Found([r], n - 1) && Resolve(fs, [], [r], n - 3) == Found([r], n - 3);
    assert Resolve(fs, [a], [s], n) == Found([r], n - 1) && Resolve(fs, [a], [s], n - 2) == Found([r], n - 3);
    assert Names([a], s, [a, s]) && Touches(fs, [a], [s], n - 2, [a, s]);
    assert Resolve(fs, [a, d], [up, s], n - 2) == Found([r], n - 3) && Touches(fs, [a, d], [up, s], n - 2, [a, s]);
    assert Resolve(fs, [a], [d, up, s], n - 2) == Found([r], n - 3) && Touches(fs, [a], [d, up, s], n - 2, [a, s]);
    assert Resolve(fs, [], [a, d, up, s], n - 2) == Found([r], n - 3) && Touches(fs, [], [a, d, up, s], n - 2, [a, s]);
    assert Resolve(fs, [p], [q, up, s], n - 1) == Found([r], n - 3) && Touches(fs, [p], [q, up, s], n - 1, [a, s]);
    assert Resolve(fs, [], text, n - 1) == Found([r], n - 3) && Touches(fs, [], text, n - 1, [a, s]);
  }

  /** A place right in a directory at the root is what it is. */
  lemma CanonicalIn(fs: FileSystem, name: string, last: string)
    requires Next(fs, [], name) == Walk([name])
    ensures Canonical(fs, [name, last]) == Some([name, last])
  {
    assert Parent([name, last]) == [name] && [name] + [last] == [name, last] && [name][1..] == [];
    assert Resolve(fs, [], [name], EVAL_LINKS) == Found([name], EVAL_LINKS);
  }

  lemma CanonicalAtRoot(fs: FileSystem, name: string)
    ensures Canonical(fs, [name]) == Some([name])
  {
    assert Parent([name]) == [] && [] + [name] == [name];
  }

  lemma ClimbingChain(a: string, s: string, d: string, p: string, q: string, r: string, t: string, decoy: bool)
    requires Apart(a, s, d, p, q, r, t)
    ensures var fs := ClimbingTarget(a, s, d, p, q, r, t, decoy);
            && Chain(fs, [t], 0) == Some([t]) && Chain(fs, [t], 1) == Some([p, s]) && Chain(fs, [t], 2) == None
            && StableLink(fs, [a, s]) == [a, s]
  {
    hide ClimbingTarget, TreeOk, Next, Resolve, Canonical, CleanFrom;
    var fs := ClimbingTarget(a, s, d, p, q, r, t, decoy);
    ClimbingSteps(a, s, d, p, q, r, t, decoy);
    ClimbingEntries(a, s, d, p, q, r, t, decoy);
    CanonicalAtRoot(fs, t);
    CleanClimbing(p, q, s);
    CanonicalIn(fs, p, s);
    CanonicalIn(fs, a, s);
    assert Named(fs, [t]) == [p, s];
  }

  lemma CleanClimbing(p: string, q: string, s: string)
    requires IsName(p) && IsName(q) && IsName(s)
    ensures CleanFrom([], [p, q, "..", s]) == [p, s]
  {
    var up: string := "..";
    assert IsUp(up) && !IsDot(up);
    hide IsDot, IsUp;
    assert [p, q, up, s][1..] == [q, up, s] && [q, up, s][1..] == [up, s] && [up, s][1..] == [s] && [s][1..] == [];
    assert [] + [p] == [p] && [p] + [q] == [p, q] && Up([p, q]) == [p] && [p] + [s] == [p, s];
    assert CleanFrom([p], [s]) == CleanFrom([p, s], []) == [p, s];
    assert CleanFrom([p, q], [up, s]) == CleanFrom([p], [s]);
    assert CleanFrom([p], [q, up, s]) == CleanFrom([p, q], [up, s]);
  }

  /** A text that climbs out of a linked directory is read as another path than the kernel
      follows: the check finds the plain file and a refresh accepts a target that leads back to
      the link, although the link had led to a live socket. */
  lemma ClimbingTargetAccepted(a: string, s: string, d: string, p: string, q: string, r: string, t: string)
    requires Apart(a, s, d, p, q, r, t)
    ensures var fs, link, target := ClimbingTarget(a, s, d, p, q, r, t, true), [a, s], [t];
            && Opens(fs, link) && !LeadsToDirectory(fs, link)
            && Accepted(fs, fs, link, target) && !Opens(fs[link := Link(true, target)], link)
  {
    hide ClimbingTarget, Resolve, Touches, IsDot, IsUp;
    var fs, link, target := ClimbingTarget(a, s, d, p, q, r, t, true), [a, s], [t];
    ClimbingTree(a, s, d, p, q, r, t, true);
    ClimbingSteps(a, s, d, p, q, r, t, true);
    ClimbingEntries(a, s, d, p, q, r, t, true);
    ClimbingResolves(a, s, d, p, q, r, t, true, STAT_LINKS);
    ClimbingChain(a, s, d, p, q, r, t, true);
    assert EndsAt(fs, target, 1) && [p, s][0] != link[0] && target[0] != link[0];
    NeverReached(fs, target, link, 2);
    DirectoryAt(fs, link, a);
    AcceptedLinkWorks(fs, fs, link, target);
  }

  lemma DirectoryAt(fs: FileSystem, link: Path, a: string)
    requires |link| == 2 && link[0] == a && Next(fs, [], a) == Walk([a]) && [a] in fs && fs[[a]] == Directory
    ensures DirectoryResolves(fs, link) && LinksUsed(fs, Parent(link)) == 0
  {
    assert Parent(link) == [a] && [a][1..] == [];
  }

  /** Without the plain file the check cannot read the path to its end, and a refresh refuses a
      target that the kernel resolves to a live socket. */
  lemma ClimbingTargetRefused(a: string, s: string, d: string, p: string, q: string, r: string, t: string)
    requires Apart(a, s, d, p, q, r, t)
    ensures var fs := ClimbingTarget(a, s, d, p, q, r, t, false);
            SocketFound(fs, Resolve(fs, [], [t], STAT_LINKS)) && !Ends(fs, [t])
  {
    hide ClimbingTarget, Resolve, Touches, IsDot, IsUp;
    var fs := ClimbingTarget(a, s, d, p, q, r, t, false);
    ClimbingTree(a, s, d, p, q, r, t, false);
    ClimbingSteps(a, s, d, p, q, r, t, false);
    ClimbingEntries(a, s, d, p, q, r, t, false);
    ClimbingResolves(a, s, d, p, q, r, t, false, STAT_LINKS);
    ClimbingChain(a, s, d, p, q, r, t, false);
    assert LinkAt(fs, [t], 0);
    NeverEnds(fs, [t], 1);
  }

  /** Links at the root, each to the next, the last name a socket. */
  ghost function LinksInRow(names: seq<string>): FileSystem
    requires names != []
  {
    if |names| == 1 then map[[names[0]] := Socket] else LinksInRow(names[1..])[[names[0]] := Link(true, [names[1]])]
  }

  ghost predicate Row(names: seq<string>) {
    && names != [] && IsClean(names) && forall i, j :: 0 <= i < j < |names| ==> names[i] != names[j]
  }

  lemma {:induction false} RowEntries(names: seq<string>, i: nat)
    requires Row(names) && i < |names|
    ensures forall p :: p in LinksInRow(names) ==> |p| == 1 && p[0] in names
    ensures var fs := LinksInRow(names);
            [names[i]] in fs && fs[[names[i]]] == if i == |names| - 1 then Socket else Link(true, [names[i + 1]])
  {
    if |names| > 1 {
      var rest := names[1..];
      assert forall j :: 0 <= j < |rest| ==> rest[j] == names[j + 1];
      RowEntries(rest, if i > 0 then i - 1 else 0);
      assert [names[i]][0] == names[i] && [names[0]][0] == names[0];
    }
  }

  /** ... beside a directory a. */
  ghost function RowAndDirectory(a: string, names: seq<string>): FileSystem
    requires names != []
  {
    LinksInRow(names)[[a] := Directory]
  }

  lemma RowHop(a: string, names: seq<string>, i: nat)
    requires Row(names) && IsName(a) && a !in names && i < |names|
    ensures var fs := RowAndDirectory(a, names);
            && [names[i]] in fs && fs[[names[i]]] == (if i == |names| - 1 then Socket else Link(true, [names[i + 1]]))
            && Next(fs, [], names[i]) == (if i == |names| - 1 then Walk([names[i]]) else Jump([], [names[i + 1]]))
  {
    hide IsDot, IsUp;
    RowEntries(names, i);
    assert [names[i]][0] != [a][0];
    NextNamed(RowAndDirectory(a, names), [], names[i], [names[i]]);
  }

  lemma RowTree(a: string, names: seq<string>)
    requires Row(names) && IsName(a) && a !in names
    ensures var fs := RowAndDirectory(a, names);
            TreeOk(fs) && Next(fs, [], a) == Walk([a]) && [a] in fs && fs[[a]] == Directory
            && forall p :: p in fs ==> |p| == 1
  {
    hide IsDot, IsUp, LinksInRow;
    var fs := RowAndDirectory(a, names);
    RowEntries(names, 0);
    forall p | p in fs
      ensures |p| == 1 && IsName(p[0]) && Parent(p) == []
    {
      if p != [a] {
        var i :| 0 <= i < |names| && names[i] == p[0];
      }
    }
    NextNamed(fs, [], a, [a]);
  }

  lemma {:induction false} RowResolves(a: string, names: seq<string>, i: nat, links: nat)
    requires Row(names) && IsName(a) && a !in names && i < |names| && links >= |names| - 1 - i
    ensures Resolve(RowAndDirectory(a, names), [], [names[i]], links) == Found([names[|names| - 1]], links + 1 + i - |names|)
    ensures forall link :: |link| == 2 ==> !Touches(RowAndDirectory(a, names), [], [names[i]], links, link)
    decreases |names| - i
  {
    hide Next, RowAndDirectory;
    RowHop(a, names, i);
    assert [names[i]][1..] == [];
    if i < |names| - 1 {
      assert [names[i + 1]] + [] == [names[i + 1]];
      RowResolves(a, names, i + 1, links - 1);
    }
  }

  lemma {:induction false} RowChain(a: string, names: seq<string>, k: nat)
    requires Row(names) && IsName(a) && a !in names
    ensures Chain(RowAndDirectory(a, names), [names[0]], k) == if k < |names| then Some([names[k]]) else None
  {
    hide RowAndDirectory, Follow, Canonical, IsName;
    var fs := RowAndDirectory(a, names);
    if k == 0 {
      CanonicalAtRoot(fs, names[0]);
    } else {
      RowChain(a, names, k - 1);
      if k <= |names| { RowFollows(a, names, k - 1); }
    }
  }

  lemma RowFollows(a: string, names: seq<string>, i: nat)
    requires Row(names) && IsName(a) && a !in names && i < |names|
    ensures Follow(RowAndDirectory(a, names), [names[i]]) == if i + 1 < |names| then Some([names[i + 1]]) else None
  {
    hide RowAndDirectory, Canonical, Next, Resolve;
    var fs := RowAndDirectory(a, names);
    RowHop(a, names, i);
    if i + 1 < |names| {
      CleanName(names[i + 1]);
      CanonicalAtRoot(fs, names[i + 1]);
    }
  }

  lemma CleanName(name: string)
    requires IsName(name)
    ensures CleanFrom([], [name]) == [name]
  {
    assert [name][1..] == [] && [] + [name] == [name];
  }

  /** A refresh accepts a target at the end of as many links as the kernel follows; the stable
      link, one more, then cannot be opened. */
  lemma OneLinkTooMany(a: string, s: string, names: seq<string>)
    requires Row(names) && IsName(a) && IsName(s) && a !in names && |names| == 41
    ensures var fs, link, target := RowAndDirectory(a, names), [a, s], [names[0]];
            && Accepted(fs, fs, link, target) && ChainStraight(fs, target) && !LeadsToDirectory(fs, link)
            && !Opens(fs[link := Link(true, target)], link)
  {
    hide RowAndDirectory, IsDot, IsUp, Next, Resolve, Touches, Chain;
    var fs, link, target := RowAndDirectory(a, names), [a, s], [names[0]];
    RowTree(a, names);
    RowHop(a, names, |names| - 1);
    RowResolves(a, names, 0, STAT_LINKS);
    RowStraight(a, names);
    CanonicalIn(fs, a, s);
    DirectoryAt(fs, link, a);
    DanglingLink(fs, link, a, s);
    AcceptedLinkWorks(fs, fs, link, target);
  }

  lemma DanglingLink(fs: FileSystem, link: Path, a: string, s: string)
    requires link == [a, s] && Next(fs, [], a) == Walk([a]) && link !in fs && IsName(s)
    ensures !LeadsToDirectory(fs, link)
  {
    assert link[1..] == [s] && [a] + [s] == link && Next(fs, [a], s) == Stop;
    assert Resolve(fs, [a], [s], STAT_LINKS) == Nowhere;
  }

  lemma RowStraight(a: string, names: seq<string>)
    requires Row(names) && IsName(a) && a !in names
    ensures var fs := RowAndDirectory(a, names);
            ChainStraight(fs, [names[0]]) && Ends(fs, [names[0]]) && forall link :: |link| == 2 ==> !Reaches(fs, [names[0]], link)
  {
    hide RowAndDirectory, IsDot, IsUp, Next, Chain;
    var fs := RowAndDirectory(a, names);
    forall k: nat
      ensures LinkAt(fs, [names[0]], k) ==> Straight(fs[Chain(fs, [names[0]], k).value].target)
      ensures Chain(fs, [names[0]], k).Some? ==> |Chain(fs, [names[0]], k).value| == 1
    {
      RowChain(a, names, k);
      if k < |names| { RowHop(a, names, k); }
    }
    RowChain(a, names, |names| - 1);
    RowHop(a, names, |names| - 1);
    assert EndsAt(fs, [names[0]], |names| - 1);
  }

  datatype Status = Unavailable | Invalid | Available

  type Environment = map<string, string>

  predicate Set(env: Environment, name: string) { name in env && TrimSpace(env[name]) != "" }

  predicate SshInvocation(env: Environment) { Set(env, "SSH_CONNECTION") || Set(env, "SSH_CLIENT") || Set(env, "SSH_TTY") }

  /** One of three variables says more than white space. */
  lemma InvokedOverSsh(env: Environment)
    ensures SshInvocation(env) <==>
      exists name :: name in ["SSH_CONNECTION", "SSH_CLIENT", "SSH_TTY"] && name in env && exists c :: c in env[name] && !IsSpace(c)
  {
    hide IsSpace;
    var names := ["SSH_CONNECTION", "SSH_CLIENT", "SSH_TTY"];
    assert names[0] in names && names[1] in names && names[2] in names;
  }

  class Agent {
    const socketPath: Path
    var fs: FileSystem

    constructor (fs: FileSystem, socketPath: Path)
      ensures this.fs == fs && this.socketPath == socketPath
    {
      this.fs, this.socketPath := fs, socketPath;
    }

    /** `absolute` is SSH_AUTH_SOCK as an absolute clean path, if it can be made one; `made` is
        the file system after the private directories were made; `dirsOk` and `linkOk` say
        whether making them and replacing the link succeeded. */
    method RefreshFromEnvironment(env: Environment, absolute: Option<Path>, made: FileSystem, dirsOk: bool, linkOk: bool)
      returns (status: Status, failed: bool)
      requires TreeOk(fs) && Grown(fs, made) && IsClean(socketPath) && (absolute.Some? ==> IsClean(absolute.value))
      requires dirsOk ==> DirectoriesMade(fs, made, socketPath)
      requires linkOk ==> Linkable(made, StableLink(made, socketPath))
      modifies this
      ensures status != Available && !failed ==> fs == old(fs)
      ensures failed ==> status == Invalid && fs == made
      ensures var usable := && SshInvocation(env) && Set(env, "SSH_AUTH_SOCK") && absolute.Some? && absolute.value != socketPath
                            && Usable(old(fs), socketPath, absolute.value);
              (status == Available <==> usable && dirsOk && linkOk) && (failed <==> usable && !(dirsOk && linkOk))
      ensures status == Unavailable <==> !(SshInvocation(env) && Set(env, "SSH_AUTH_SOCK"))
      ensures status == Available ==>
        && !failed && absolute.Some? && Accepted(old(fs), made, socketPath, absolute.value)
        && var link, target := StableLink(made, socketPath), absolute.value;
        && fs == made[link := Link(true, target)]
        && (Opens(fs, socketPath) <==>
              && !Touches(made, [], Parent(socketPath), STAT_LINKS, link) && !Touches(old(fs), [], target, STAT_LINKS, link)
              && FewLinks(made, socketPath, target))
        && (!LeadsToDirectory(old(fs), StableLink(old(fs), socketPath)) && ChainStraight(old(fs), target) ==>
              (Opens(fs, socketPath) <==> FewLinks(made, socketPath, target)))
    {
      hide Resolve, Touches, TreeOk, ChainStraight;
      if !SshInvocation(env) {
        return Unavailable, false;
      }
      if !Set(env, "SSH_AUTH_SOCK") {
        return Unavailable, false;
      }
      if absolute.None? || absolute.value == socketPath {
        return Invalid, false;
      }
      var target := absolute.value;
      var answer := SymlinkChainReferences(fs, target, socketPath);
      if answer != No {
        return Invalid, false;
      }
      if !SocketFound(fs, Resolve(fs, [], target, STAT_LINKS)) {
        return Invalid, false;
      }
      ghost var before := fs;
      fs := made;
      if !dirsOk || !linkOk {
        return Invalid, true;
      }
      AcceptedLinkWorks(before, made, socketPath, target);
      if !LeadsToDirectory(before, StableLink(before, socketPath)) && ChainStraight(before, target) {
        AcceptedUnlessDirectory(before, made, socketPath, target);
      }
      fs := fs[StableLink(made, socketPath) := Link(true, target)];
      return Available, false;
    }
  }
}
