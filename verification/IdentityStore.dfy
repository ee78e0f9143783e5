/** Opaque references for the panes and windows of a managed session, kept in step with
    the topology that tmux reports. */
module IdentityStore {
  import opened Text

  datatype PaneGeneration = PaneGeneration(serverStart: string, serverPid: int, paneId: string)

  datatype Pane = Pane(id: string, windowId: string, windowName: string, active: bool, windowOpen: bool, width: int, height: int)
  datatype Topology = Topology(serverStart: string, serverPid: int, panes: seq<Pane>)

  /** References come from one supply that never repeats; 0 stands for "no reference". */
  type Ref = nat
  const NO_REF: Ref := 0

  datatype PaneBinding = PaneBinding(ref: Ref, rawId: string, windowId: string, active: bool, generation: PaneGeneration)
  datatype WindowBinding = WindowBinding(ref: Ref, rawId: string)

  datatype Identity = Identity(canonical: string, panes: map<Ref, PaneBinding>, paneRefs: map<string, Ref>,
                               windows: map<Ref, WindowBinding>, windowRefs: map<string, Ref>)

  datatype PublicWindow = PublicWindow(ref: Ref, name: string, active: bool, panes: nat, activePaneRef: Ref, width: int, height: int)
  datatype PublicTopology = PublicTopology(windows: seq<PublicWindow>, activeWindowRef: Ref, activePaneRef: Ref,
                                           windowWidth: int, windowHeight: int)
  datatype Result<T> = Ok(value: T) | Stale

  function NewIdentity(canonical: string): Identity { Identity(canonical, map[], map[], map[], map[]) }

  // ----- One listed pane

  function GenerationOf(t: Topology, id: string): PaneGeneration { PaneGeneration(t.serverStart, t.serverPid, id) }

  predicate ShownActive(p: Pane) { p.active && p.windowOpen }

  /** Keeps or gives the window a reference. */
  function NoteWindow(i: Identity, next: Ref, windowId: string): (Identity, Ref) {
    if windowId in i.windowRefs then (i, next)
    else (i.(windowRefs := i.windowRefs[windowId := next], windows := i.windows[next := WindowBinding(next, windowId)]), next + 1)
  }

  /** Whether a pane already has a reference for this very server generation. */
  predicate Known(i: Identity, generation: PaneGeneration) {
    var raw := generation.paneId;
    raw in i.paneRefs && i.paneRefs[raw] in i.panes && i.panes[i.paneRefs[raw]].generation == generation
  }

  function NotePane(i: Identity, next: Ref, t: Topology, p: Pane): (Identity, Ref, PaneBinding) {
    var generation := GenerationOf(t, p.id);
    var known := Known(i, generation);
    var ref := if known then i.paneRefs[p.id] else next;
    var binding := PaneBinding(ref, p.id, p.windowId, ShownActive(p), generation);
    var cleared := if !known && p.id in i.paneRefs then i.panes - {i.paneRefs[p.id]} else i.panes;
    (i.(paneRefs := i.paneRefs[p.id := ref], panes := cleared[ref := binding]), if known then next else next + 1, binding)
  }

  // ----- The maps of one session

  /** The pane maps are inverses of each other, and so are the window maps. */
  ghost predicate PanesOk(panes: map<Ref, PaneBinding>, paneRefs: map<string, Ref>, next: Ref) {
    && (forall r :: r in panes ==>
          && 1 <= r < next && panes[r].ref == r && panes[r].generation.paneId == panes[r].rawId
          && panes[r].rawId in paneRefs && paneRefs[panes[r].rawId] == r)
    && (forall raw :: raw in paneRefs ==> paneRefs[raw] in panes && panes[paneRefs[raw]].rawId == raw)
  }

  ghost predicate WindowsOk(windows: map<Ref, WindowBinding>, windowRefs: map<string, Ref>, next: Ref) {
    && (forall r :: r in windows ==>
          && 1 <= r < next && windows[r].ref == r && windows[r].rawId in windowRefs && windowRefs[windows[r].rawId] == r)
    && (forall raw :: raw in windowRefs ==> windowRefs[raw] in windows && windows[windowRefs[raw]].rawId == raw)
  }

  ghost predicate IdentityOk(i: Identity, next: Ref) {
    next >= 1 && PanesOk(i.panes, i.paneRefs, next) && WindowsOk(i.windows, i.windowRefs, next)
  }

  /** Every reference now bound is new, or was bound to the same pane of the same server. */
  ghost predicate Descends(panes: map<Ref, PaneBinding>, next: Ref, panes': map<Ref, PaneBinding>) {
    forall r :: r in panes' && r < next ==>
      r in panes && panes'[r].rawId == panes[r].rawId && panes'[r].generation == panes[r].generation
  }

  lemma NoteWindowKeeps(i: Identity, next: Ref, windowId: string)
    requires IdentityOk(i, next)
    ensures var (i', next') := NoteWindow(i, next, windowId);
            && IdentityOk(i', next') && next <= next' && windowId in i'.windowRefs
            && i'.panes == i.panes && i'.paneRefs == i.paneRefs && i'.canonical == i.canonical
            && i'.windowRefs.Keys == i.windowRefs.Keys + {windowId}
            && forall w :: w in i.windowRefs ==> i'.windowRefs[w] == i.windowRefs[w]
  {
  }

  /** Rebinding a pane to the reference it has. */
  lemma RebindKeeps(panes: map<Ref, PaneBinding>, paneRefs: map<string, Ref>, next: Ref, b: PaneBinding)
    requires PanesOk(panes, paneRefs, next) && b.rawId in paneRefs && paneRefs[b.rawId] == b.ref
    requires panes[b.ref].generation == b.generation && b.generation.paneId == b.rawId
    ensures PanesOk(panes[b.ref := b], paneRefs, next) && Descends(panes, next, panes[b.ref := b])
  {
  }

  /** Retiring whatever reference a pane has, for a fresh one. */
  lemma FreshBindKeeps(panes: map<Ref, PaneBinding>, paneRefs: map<string, Ref>, next: Ref, b: PaneBinding)
    requires next >= 1 && PanesOk(panes, paneRefs, next) && b.ref == next && b.generation.paneId == b.rawId
    ensures var cleared := if b.rawId in paneRefs then panes - {paneRefs[b.rawId]} else panes;
            && PanesOk(cleared[next := b], paneRefs[b.rawId := next], next + 1) && Descends(panes, next, cleared[next := b])
            && forall raw :: raw in paneRefs && raw != b.rawId ==> paneRefs[raw] in cleared && paneRefs[raw] != next
  {
    var cleared := if b.rawId in paneRefs then panes - {paneRefs[b.rawId]} else panes;
    forall raw | raw in paneRefs && raw != b.rawId
      ensures paneRefs[raw] in cleared && paneRefs[raw] != next
    {
      assert panes[paneRefs[raw]].rawId == raw;
    }
  }

  lemma NotePaneKeeps(i: Identity, next: Ref, t: Topology, p: Pane)
    requires IdentityOk(i, next)
    ensures var (i', next', binding) := NotePane(i, next, t, p);
            && PanesOk(i'.panes, i'.paneRefs, next') && next <= next' <= next + 1
            && i'.windows == i.windows && i'.windowRefs == i.windowRefs && i'.canonical == i.canonical
            && Descends(i.panes, next, i'.panes)
            && i'.paneRefs == i.paneRefs[p.id := binding.ref]
            && binding == PaneBinding(binding.ref, p.id, p.windowId, ShownActive(p), GenerationOf(t, p.id))
            && binding.ref in i'.panes && i'.panes[binding.ref] == binding
            && (forall raw :: raw in i.paneRefs && raw != p.id ==>
                  i.paneRefs[raw] in i'.panes && i'.panes[i.paneRefs[raw]] == i.panes[i.paneRefs[raw]])
            && (p.id in i.paneRefs && i.panes[i.paneRefs[p.id]].generation == GenerationOf(t, p.id) ==>
                  binding.ref == i.paneRefs[p.id])
  {
    var (i', next', binding) := NotePane(i, next, t, p);
    if Known(i, GenerationOf(t, p.id)) {
      RebindKeeps(i.panes, i.paneRefs, next, binding);
      assert i.paneRefs[p.id := binding.ref] == i.paneRefs;
    } else {
      FreshBindKeeps(i.panes, i.paneRefs, next, binding);
    }
  }

  // ----- The whole listing

  /** The state of the loop over the listed panes. */
  datatype Scan = Scan(identity: Identity, next: Ref, order: seq<string>, meta: map<string, Pane>,
                       grouped: map<string, seq<PaneBinding>>)

  function GroupOf(grouped: map<string, seq<PaneBinding>>, w: string): seq<PaneBinding> {
    if w in grouped then grouped[w] else []
  }

  function ScanPane(s: Scan, t: Topology, p: Pane): Scan {
    var (i, next) := NoteWindow(s.identity, s.next, p.windowId);
    var (i', next', binding) := NotePane(i, next, t, p);
    Scan(i', next',
         if p.windowId in s.meta then s.order else s.order + [p.windowId],
         if p.windowId in s.meta then s.meta else s.meta[p.windowId := p],
         s.grouped[p.windowId := GroupOf(s.grouped, p.windowId) + [binding]])
  }

  function ScanAll(i: Identity, next: Ref, t: Topology, n: nat): Scan
    requires n <= |t.panes|
  {
    if n == 0 then Scan(i, next, [], map[], map[]) else ScanPane(ScanAll(i, next, t, n - 1), t, t.panes[n - 1])
  }

  /** The last listed entry of a pane decides how it is bound. */
  ghost predicate LastEntry(t: Topology, n: nat, k: nat)
    requires n <= |t.panes|
  {
    k < n && forall j :: k < j < n ==> t.panes[j].id != t.panes[k].id
  }

  ghost predicate Current(i: Identity, t: Topology, raw: string) {
    raw in i.paneRefs && i.paneRefs[raw] in i.panes && i.panes[i.paneRefs[raw]].generation == GenerationOf(t, raw)
  }

  ghost predicate BoundAs(i: Identity, t: Topology, p: Pane) {
    && Current(i, t, p.id)
    && i.panes[i.paneRefs[p.id]].active == ShownActive(p) && i.panes[i.paneRefs[p.id]].windowId == p.windowId
  }

  ghost predicate EntriesOk(i: Identity, t: Topology, n: nat)
    requires n <= |t.panes|
  {
    && (forall k :: 0 <= k < n ==> Current(i, t, t.panes[k].id))
    && (forall k :: 0 <= k < n && LastEntry(t, n, k) ==> BoundAs(i, t, t.panes[k]))
  }

  /** A grouped binding stands for a listed entry of its window, under its present reference. */
  ghost predicate Stands(i: Identity, t: Topology, n: nat, w: string, b: PaneBinding)
    requires n <= |t.panes|
  {
    && b.rawId in i.paneRefs && i.paneRefs[b.rawId] == b.ref
    && exists k :: 0 <= k < n && t.panes[k].id == b.rawId && t.panes[k].windowId == w && ShownActive(t.panes[k]) == b.active
  }

  ghost predicate GroupsOk(i: Identity, t: Topology, n: nat, grouped: map<string, seq<PaneBinding>>)
    requires n <= |t.panes|
  {
    forall w, j :: w in grouped && 0 <= j < |grouped[w]| ==> Stands(i, t, n, w, grouped[w][j])
  }

  ghost function Elements(s: seq<string>): set<string> { set x | x in s }

  ghost function ListedWindows(t: Topology, n: nat): set<string>
    requires n <= |t.panes|
  {
    if n == 0 then {} else ListedWindows(t, n - 1) + {t.panes[n - 1].windowId}
  }

  ghost function ListedPanes(t: Topology, n: nat): set<string>
    requires n <= |t.panes|
  {
    if n == 0 then {} else ListedPanes(t, n - 1) + {t.panes[n - 1].id}
  }

  /** Which windows are noted: exactly the listed ones, each with a reference. */
  ghost predicate OrderOk(s: Scan, t: Topology, n: nat)
    requires n <= |t.panes|
  {
    && s.meta.Keys == s.grouped.Keys == Elements(s.order) == ListedWindows(t, n)
    && s.meta.Keys <= s.identity.windowRefs.Keys
  }

  /** What one listed entry changes in the maps. */
  ghost predicate Noted(i: Identity, next: Ref, i': Identity, next': Ref, t: Topology, p: Pane) {
    && IdentityOk(i', next') && next <= next' && i'.canonical == i.canonical
    && Descends(i.panes, next, i'.panes)
    && BoundAs(i', t, p) && i'.paneRefs.Keys == i.paneRefs.Keys + {p.id}
    && (forall raw :: raw in i.paneRefs && raw != p.id ==> SameBinding(i, i', raw))
    && (Current(i, t, p.id) ==> i'.paneRefs[p.id] == i.paneRefs[p.id])
    && i'.windowRefs.Keys == i.windowRefs.Keys + {p.windowId}
  }

  ghost predicate SameBinding(i: Identity, i': Identity, raw: string) {
    && raw in i.paneRefs && raw in i'.paneRefs && i'.paneRefs[raw] == i.paneRefs[raw]
    && i.paneRefs[raw] in i.panes && i.paneRefs[raw] in i'.panes && i'.panes[i.paneRefs[raw]] == i.panes[i.paneRefs[raw]]
  }

  lemma NotePaneNotes(i: Identity, next: Ref, t: Topology, p: Pane)
    requires IdentityOk(i, next) && p.windowId in i.windowRefs
    ensures Noted(i, next, NotePane(i, next, t, p).0, NotePane(i, next, t, p).1, t, p)
  {
    NotePaneKeeps(i, next, t, p);
    var (i', next', _) := NotePane(i, next, t, p);
    WindowsLater(i.windows, i.windowRefs, next, next');
    assert forall raw :: raw in i.paneRefs && raw != p.id ==> SameBinding(i, i', raw);
    assert i'.windowRefs.Keys == i.windowRefs.Keys + {p.windowId};
  }

  lemma ScanPaneNotes(s: Scan, t: Topology, p: Pane)
    requires IdentityOk(s.identity, s.next)
    ensures Noted(s.identity, s.next, ScanPane(s, t, p).identity, ScanPane(s, t, p).next, t, p)
  {
    NoteWindowKeeps(s.identity, s.next, p.windowId);
    var (i, next) := NoteWindow(s.identity, s.next, p.windowId);
    NotePaneNotes(i, next, t, p);
    WindowFirst(s.identity, s.next, i, next, ScanPane(s, t, p).identity, ScanPane(s, t, p).next, t, p);
  }

  /** Noting the window first leaves the panes as they were. */
  lemma WindowFirst(i: Identity, next: Ref, j: Identity, next1: Ref, i': Identity, next2: Ref, t: Topology, p: Pane)
    requires Noted(j, next1, i', next2, t, p) && next <= next1
    requires j.panes == i.panes && j.paneRefs == i.paneRefs && j.canonical == i.canonical
    requires j.windowRefs.Keys == i.windowRefs.Keys + {p.windowId}
    ensures Noted(i, next, i', next2, t, p)
  {
    assert forall raw :: raw in i.paneRefs && raw != p.id ==> SameBinding(j, i', raw) && SameBinding(i, i', raw);
    assert Current(i, t, p.id) == Current(j, t, p.id);
  }

  lemma WindowsLater(windows: map<Ref, WindowBinding>, windowRefs: map<string, Ref>, next: Ref, next': Ref)
    requires WindowsOk(windows, windowRefs, next) && next <= next'
    ensures WindowsOk(windows, windowRefs, next')
  {
  }

  lemma NotedEntries(i: Identity, next: Ref, i': Identity, next': Ref, t: Topology, n: nat)
    requires 0 < n <= |t.panes| && Noted(i, next, i', next', t, t.panes[n - 1]) && EntriesOk(i, t, n - 1)
    ensures EntriesOk(i', t, n)
  {
    var p := t.panes[n - 1];
    forall k | 0 <= k < n
      ensures Current(i', t, t.panes[k].id)
    {
      if k < n - 1 { assert Current(i, t, t.panes[k].id); }
    }
    forall k | 0 <= k < n && LastEntry(t, n, k)
      ensures BoundAs(i', t, t.panes[k])
    {
      if k < n - 1 {
        assert t.panes[n - 1].id != t.panes[k].id;
        assert LastEntry(t, n - 1, k);
        assert SameBinding(i, i', t.panes[k].id);
      }
    }
  }

  lemma NotedStands(i: Identity, next: Ref, i': Identity, next': Ref, t: Topology, n: nat, w: string, b: PaneBinding)
    requires 0 < n <= |t.panes| && Noted(i, next, i', next', t, t.panes[n - 1]) && EntriesOk(i, t, n - 1)
    requires Stands(i, t, n - 1, w, b)
    ensures Stands(i', t, n, w, b)
  {
    var k :| 0 <= k < n - 1 && t.panes[k].id == b.rawId && t.panes[k].windowId == w && ShownActive(t.panes[k]) == b.active;
    assert Current(i, t, b.rawId);
    assert b.rawId != t.panes[n - 1].id ==> SameBinding(i, i', b.rawId);
  }

  lemma NotedGroups(i: Identity, next: Ref, i': Identity, next': Ref, t: Topology, n: nat,
                    grouped: map<string, seq<PaneBinding>>, b: PaneBinding)
    requires 0 < n <= |t.panes| && Noted(i, next, i', next', t, t.panes[n - 1]) && EntriesOk(i, t, n - 1)
    requires GroupsOk(i, t, n - 1, grouped)
    requires var p := t.panes[n - 1]; b.rawId == p.id && b.active == ShownActive(p) && b.ref == i'.paneRefs[p.id]
    ensures var w := t.panes[n - 1].windowId; GroupsOk(i', t, n, grouped[w := GroupOf(grouped, w) + [b]])
  {
    var p := t.panes[n - 1];
    var grouped' := grouped[p.windowId := GroupOf(grouped, p.windowId) + [b]];
    forall w, j | w in grouped' && 0 <= j < |grouped'[w]|
      ensures Stands(i', t, n, w, grouped'[w][j])
    {
      if w in grouped && j < |grouped[w]| {
        NotedStands(i, next, i', next', t, n, w, grouped[w][j]);
      } else {
        assert grouped'[w][j] == b && w == p.windowId;
      }
    }
  }

  lemma ScanPaneBinding(s: Scan, t: Topology, p: Pane) returns (b: PaneBinding)
    requires IdentityOk(s.identity, s.next)
    ensures b.rawId == p.id && b.active == ShownActive(p)
    ensures p.id in ScanPane(s, t, p).identity.paneRefs && b.ref == ScanPane(s, t, p).identity.paneRefs[p.id]
    ensures ScanPane(s, t, p).grouped == s.grouped[p.windowId := GroupOf(s.grouped, p.windowId) + [b]]
  {
    NoteWindowKeeps(s.identity, s.next, p.windowId);
    var (i, next) := NoteWindow(s.identity, s.next, p.windowId);
    NotePaneKeeps(i, next, t, p);
    b := NotePane(i, next, t, p).2;
  }

  lemma ScanOrder(s: Scan, t: Topology, n: nat)
    requires 0 < n <= |t.panes| && OrderOk(s, t, n - 1)
    requires ScanPane(s, t, t.panes[n - 1]).identity.windowRefs.Keys == s.identity.windowRefs.Keys + {t.panes[n - 1].windowId}
    ensures OrderOk(ScanPane(s, t, t.panes[n - 1]), t, n)
  {
    var w := t.panes[n - 1].windowId;
    var s' := ScanPane(s, t, t.panes[n - 1]);
    ElementsSnoc(s.order, w);
    assert s'.meta.Keys == s.meta.Keys + {w} && s'.grouped.Keys == s.grouped.Keys + {w};
  }

  lemma ElementsSnoc(order: seq<string>, w: string)
    ensures Elements(order + [w]) == Elements(order) + {w}
  {
  }

  lemma DescendsTransitive(a: map<Ref, PaneBinding>, next: Ref, b: map<Ref, PaneBinding>, next': Ref, c: map<Ref, PaneBinding>)
    requires Descends(a, next, b) && Descends(b, next', c) && next <= next'
    ensures Descends(a, next, c)
  {
  }

  ghost predicate ScanOk(i: Identity, next: Ref, t: Topology, n: nat, s: Scan)
    requires n <= |t.panes|
  {
    && IdentityOk(s.identity, s.next) && next <= s.next && s.identity.canonical == i.canonical
    && Descends(i.panes, next, s.identity.panes)
    && EntriesOk(s.identity, t, n) && GroupsOk(s.identity, t, n, s.grouped) && OrderOk(s, t, n)
  }

  lemma {:induction false} ScanKeeps(i: Identity, next: Ref, t: Topology, n: nat)
    requires n <= |t.panes| && IdentityOk(i, next)
    ensures ScanOk(i, next, t, n, ScanAll(i, next, t, n))
  {
    hide ScanPane, ScanOk, IdentityOk;
    if n == 0 {
      ScanStart(i, next, t);
    } else {
      ScanKeeps(i, next, t, n - 1);
      ScanStep(i, next, t, n, ScanAll(i, next, t, n - 1));
    }
  }

  lemma ScanStart(i: Identity, next: Ref, t: Topology)
    requires IdentityOk(i, next)
    ensures ScanOk(i, next, t, 0, Scan(i, next, [], map[], map[]))
  {
    assert Elements([]) == {};
  }

  lemma ScanStep(i: Identity, next: Ref, t: Topology, n: nat, s: Scan)
    requires 0 < n <= |t.panes| && ScanOk(i, next, t, n - 1, s)
    ensures ScanOk(i, next, t, n, ScanPane(s, t, t.panes[n - 1]))
  {
    var p := t.panes[n - 1];
    var s' := ScanPane(s, t, p);
    ScanPaneNotes(s, t, p);
    DescendsTransitive(i.panes, next, s.identity.panes, s.next, s'.identity.panes);
    NotedEntries(s.identity, s.next, s'.identity, s'.next, t, n);
    var b := ScanPaneBinding(s, t, p);
    NotedGroups(s.identity, s.next, s'.identity, s'.next, t, n, s.grouped, b);
    ScanOrder(s, t, n);
  }

  // ----- Forgetting what is no longer listed

  function Prune(i: Identity, livePanes: set<string>, liveWindows: set<string>): Identity {
    i.(panes := i.panes - (set raw | raw in i.paneRefs && raw !in livePanes :: i.paneRefs[raw]),
       paneRefs := map raw | raw in i.paneRefs && raw in livePanes :: i.paneRefs[raw],
       windows := i.windows - (set raw | raw in i.windowRefs && raw !in liveWindows :: i.windowRefs[raw]),
       windowRefs := map raw | raw in i.windowRefs && raw in liveWindows :: i.windowRefs[raw])
  }

  ghost predicate Pruned(i: Identity, i': Identity, next: Ref, livePanes: set<string>, liveWindows: set<string>) {
    && IdentityOk(i', next) && Descends(i.panes, next, i'.panes) && i'.canonical == i.canonical
    && i'.paneRefs.Keys == i.paneRefs.Keys * livePanes && i'.windowRefs.Keys == i.windowRefs.Keys * liveWindows
    && (forall raw :: raw in i.paneRefs && raw in livePanes ==> SameBinding(i, i', raw))
  }

  lemma PruneKeeps(i: Identity, next: Ref, livePanes: set<string>, liveWindows: set<string>)
    requires IdentityOk(i, next)
    ensures Pruned(i, Prune(i, livePanes, liveWindows), next, livePanes, liveWindows)
  {
    PrunePanes(i.panes, i.paneRefs, next, livePanes);
    PruneWindows(i.windows, i.windowRefs, next, liveWindows);
  }

  lemma PrunePanes(panes: map<Ref, PaneBinding>, paneRefs: map<string, Ref>, next: Ref, live: set<string>)
    requires PanesOk(panes, paneRefs, next)
    ensures var panes' := panes - (set raw | raw in paneRefs && raw !in live :: paneRefs[raw]);
            PanesOk(panes', map raw | raw in paneRefs && raw in live :: paneRefs[raw], next)
            && forall raw :: raw in paneRefs && raw in live ==> paneRefs[raw] in panes'
  {
    var dead := set raw | raw in paneRefs && raw !in live :: paneRefs[raw];
    forall raw | raw in paneRefs
      ensures paneRefs[raw] in dead <==> raw !in live
    {
      assert panes[paneRefs[raw]].rawId == raw;
    }
  }

  lemma PruneWindows(windows: map<Ref, WindowBinding>, windowRefs: map<string, Ref>, next: Ref, live: set<string>)
    requires WindowsOk(windows, windowRefs, next)
    ensures WindowsOk(windows - (set raw | raw in windowRefs && raw !in live :: windowRefs[raw]),
                      map raw | raw in windowRefs && raw in live :: windowRefs[raw], next)
  {
    var dead := set raw | raw in windowRefs && raw !in live :: windowRefs[raw];
    forall raw | raw in windowRefs
      ensures windowRefs[raw] in dead <==> raw !in live
    {
      assert windows[windowRefs[raw]].rawId == raw;
    }
  }

  // ----- What the caller sees

  function ActiveRef(bindings: seq<PaneBinding>): Ref {
    if bindings == [] then NO_REF
    else
      var last := bindings[|bindings| - 1];
      if last.active then last.ref else ActiveRef(bindings[..|bindings| - 1])
  }

  function WindowView(s: Scan, windowRefs: map<string, Ref>, w: string): PublicWindow
    requires w in s.meta && w in windowRefs
  {
    var bindings := GroupOf(s.grouped, w);
    PublicWindow(windowRefs[w], s.meta[w].windowName, s.meta[w].windowOpen, |bindings|, ActiveRef(bindings),
                 s.meta[w].width, s.meta[w].height)
  }

  function Summary(s: Scan, windowRefs: map<string, Ref>, n: nat): PublicTopology
    requires n <= |s.order| && forall w :: w in s.order ==> w in s.meta && w in windowRefs
  {
    if n == 0 then PublicTopology([], NO_REF, NO_REF, 0, 0)
    else
      var before := Summary(s, windowRefs, n - 1);
      var window := WindowView(s, windowRefs, s.order[n - 1]);
      var windows := before.windows + [window];
      if window.active then PublicTopology(windows, window.ref, window.activePaneRef, window.width, window.height)
      else before.(windows := windows)
  }

  // ----- One update

  ghost function UpdatedIdentity(i: Identity, next: Ref, t: Topology): Identity {
    Prune(ScanAll(i, next, t, |t.panes|).identity, ListedPanes(t, |t.panes|), ListedWindows(t, |t.panes|))
  }

  ghost function SupplyAfter(i: Identity, next: Ref, t: Topology): Ref { ScanAll(i, next, t, |t.panes|).next }

  lemma {:induction false} ListedPaneIds(t: Topology, n: nat)
    requires n <= |t.panes|
    ensures forall raw :: raw in ListedPanes(t, n) <==> exists k :: 0 <= k < n && t.panes[k].id == raw
  {
    if n > 0 { ListedPaneIds(t, n - 1); }
  }

  /** The maps stay inverse and cover exactly the listing; every listed pane is bound as its
      last entry says, under the present server; references descend. */
  lemma UpdateKeeps(i: Identity, next: Ref, t: Topology)
    requires IdentityOk(i, next)
    ensures var i', n := UpdatedIdentity(i, next, t), |t.panes|;
            && IdentityOk(i', SupplyAfter(i, next, t)) && next <= SupplyAfter(i, next, t)
            && Descends(i.panes, next, i'.panes) && i'.canonical == i.canonical
            && i'.paneRefs.Keys == ListedPanes(t, n) && i'.windowRefs.Keys == ListedWindows(t, n)
            && EntriesOk(i', t, n)
  {
    var n := |t.panes|;
    var s := ScanAll(i, next, t, n);
    ScanKeeps(i, next, t, n);
    PruneKeeps(s.identity, s.next, ListedPanes(t, n), ListedWindows(t, n));
    PrunedScan(i, next, t, s, UpdatedIdentity(i, next, t));
  }

  lemma EntriesSurvive(i: Identity, i': Identity, t: Topology, n: nat)
    requires n <= |t.panes| && EntriesOk(i, t, n)
    requires forall raw :: raw in i.paneRefs && raw in ListedPanes(t, n) ==> SameBinding(i, i', raw)
    ensures EntriesOk(i', t, n)
  {
    forall k | 0 <= k < n
      ensures Current(i', t, t.panes[k].id) && (LastEntry(t, n, k) ==> BoundAs(i', t, t.panes[k]))
    {
      Listed(t, n, k);
      assert Current(i, t, t.panes[k].id) && SameBinding(i, i', t.panes[k].id);
    }
  }

  lemma {:induction false} Listed(t: Topology, n: nat, k: nat)
    requires k < n <= |t.panes|
    ensures t.panes[k].id in ListedPanes(t, n)
  {
    if k < n - 1 { Listed(t, n - 1, k); }
  }

  lemma PrunedScan(i: Identity, next: Ref, t: Topology, s: Scan, i': Identity)
    requires ScanOk(i, next, t, |t.panes|, s)
    requires Pruned(s.identity, i', s.next, ListedPanes(t, |t.panes|), ListedWindows(t, |t.panes|))
    ensures Descends(i.panes, next, i'.panes)
    ensures i'.paneRefs.Keys == ListedPanes(t, |t.panes|) && i'.windowRefs.Keys == ListedWindows(t, |t.panes|)
    ensures EntriesOk(i', t, |t.panes|)
  {
    hide EntriesOk, GroupsOk, WindowsOk, PanesOk;
    DescendsTransitive(i.panes, next, s.identity.panes, s.next, i'.panes);
    ListedAreBound(s.identity, t, |t.panes|);
    EntriesSurvive(s.identity, i', t, |t.panes|);
  }

  lemma ListedAreBound(i: Identity, t: Topology, n: nat)
    requires n <= |t.panes| && EntriesOk(i, t, n)
    ensures ListedPanes(t, n) <= i.paneRefs.Keys
  {
    ListedPaneIds(t, n);
    forall raw | raw in ListedPanes(t, n)
      ensures raw in i.paneRefs
    {
      var k :| 0 <= k < n && t.panes[k].id == raw;
      assert Current(i, t, t.panes[k].id);
    }
  }

  /** What an update shows: the listed windows in order of first appearance. */
  ghost function View(i: Identity, next: Ref, t: Topology): PublicTopology
    requires IdentityOk(i, next)
  {
    var s := ScanAll(i, next, t, |t.panes|);
    ViewDefined(i, next, t);
    Summary(s, UpdatedIdentity(i, next, t).windowRefs, |s.order|)
  }

  lemma ViewDefined(i: Identity, next: Ref, t: Topology)
    requires IdentityOk(i, next)
    ensures var s := ScanAll(i, next, t, |t.panes|);
            forall w :: w in s.order ==> w in s.meta && w in UpdatedIdentity(i, next, t).windowRefs
  {
    ScanKeeps(i, next, t, |t.panes|);
    UpdateKeeps(i, next, t);
    var s := ScanAll(i, next, t, |t.panes|);
    assert forall w :: w in s.order ==> w in Elements(s.order);
  }

  predicate Complete(view: PublicTopology) { view.activePaneRef != NO_REF && view.activeWindowRef != NO_REF }

  // ----- The view straight from the listing

  predicate FirstOfWindow(t: Topology, k: nat)
    requires k < |t.panes|
  {
    forall j :: 0 <= j < k ==> t.panes[j].windowId != t.panes[k].windowId
  }

  /** The entries that are the first of their window, in order. */
  function Firsts(t: Topology, n: nat): (ks: seq<nat>)
    requires n <= |t.panes|
    ensures forall j :: 0 <= j < |ks| ==> ks[j] < n
  {
    if n == 0 then [] else Firsts(t, n - 1) + if FirstOfWindow(t, n - 1) then [n - 1] else []
  }

  /** The entries of a window, in order. */
  function EntriesOf(t: Topology, n: nat, w: string): (ks: seq<nat>)
    requires n <= |t.panes|
    ensures forall j :: 0 <= j < |ks| ==> ks[j] < n
  {
    if n == 0 then [] else EntriesOf(t, n - 1, w) + if t.panes[n - 1].windowId == w then [n - 1] else []
  }

  function RefOf(refs: map<string, Ref>, raw: string): Ref { if raw in refs then refs[raw] else NO_REF }

  /** The reference of the last of these entries that is shown active. */
  function LastShown(paneRefs: map<string, Ref>, t: Topology, ks: seq<nat>): Ref
    requires forall j :: 0 <= j < |ks| ==> ks[j] < |t.panes|
  {
    if ks == [] then NO_REF
    else
      var last := t.panes[ks[|ks| - 1]];
      if ShownActive(last) then RefOf(paneRefs, last.id) else LastShown(paneRefs, t, ks[..|ks| - 1])
  }

  /** What is shown of the window that first appears in entry k. */
  function WindowShown(i: Identity, t: Topology, k: nat): PublicWindow
    requires k < |t.panes|
  {
    var p := t.panes[k];
    var ks := EntriesOf(t, |t.panes|, p.windowId);
    PublicWindow(RefOf(i.windowRefs, p.windowId), p.windowName, p.windowOpen, |ks|, LastShown(i.paneRefs, t, ks), p.width, p.height)
  }

  ghost predicate LastOpen(windows: seq<PublicWindow>, k: nat) {
    k < |windows| && windows[k].active && forall j :: k < j < |windows| ==> !windows[j].active
  }

  /** What the view says of the active window: the last open one, if any is open. */
  ghost predicate ActiveShown(v: PublicTopology) {
    && (forall k: nat :: LastOpen(v.windows, k) ==>
          var w := v.windows[k];
          v.activeWindowRef == w.ref && v.activePaneRef == w.activePaneRef && v.windowWidth == w.width && v.windowHeight == w.height)
    && ((forall k :: 0 <= k < |v.windows| ==> !v.windows[k].active) ==> v.activeWindowRef == v.activePaneRef == NO_REF)
  }

  ghost predicate GroupLists(group: seq<PaneBinding>, t: Topology, ks: seq<nat>)
    requires forall j :: 0 <= j < |ks| ==> ks[j] < |t.panes|
  {
    && |group| == |ks|
    && forall j :: 0 <= j < |ks| ==> group[j].rawId == t.panes[ks[j]].id && group[j].active == ShownActive(t.panes[ks[j]])
  }

  ghost predicate InOrder(s: Scan, t: Topology, n: nat)
    requires n <= |t.panes|
  {
    && |s.order| == |Firsts(t, n)|
    && (forall k :: 0 <= k < |s.order| ==>
          var p := t.panes[Firsts(t, n)[k]]; s.order[k] == p.windowId && p.windowId in s.meta && s.meta[p.windowId] == p)
  }

  /** The loop over the listing collects the windows and their entries in order. */
  ghost predicate Collects(s: Scan, t: Topology, n: nat)
    requires n <= |t.panes|
  {
    && InOrder(s, t, n)
    && (forall w :: GroupLists(GroupOf(s.grouped, w), t, EntriesOf(t, n, w)))
  }

  lemma ListedWindowIds(t: Topology, n: nat, k: nat)
    requires n <= |t.panes| && k < |t.panes|
    ensures t.panes[k].windowId in ListedWindows(t, n) <==> exists j :: 0 <= j < n && t.panes[j].windowId == t.panes[k].windowId
  {
    if n > 0 { ListedWindowIds(t, n - 1, k); }
  }

  lemma GroupListsMore(grouped: map<string, seq<PaneBinding>>, t: Topology, n: nat, b: PaneBinding, w: string)
    requires 0 < n <= |t.panes| && b.rawId == t.panes[n - 1].id && b.active == ShownActive(t.panes[n - 1])
    requires GroupLists(GroupOf(grouped, w), t, EntriesOf(t, n - 1, w))
    ensures var last := t.panes[n - 1].windowId;
            GroupLists(GroupOf(grouped[last := GroupOf(grouped, last) + [b]], w), t, EntriesOf(t, n, w))
  {
    var last, group, ks := t.panes[n - 1].windowId, GroupOf(grouped, w), EntriesOf(t, n - 1, w);
    if w == last {
      GroupListsSnoc(group, t, ks, b, n - 1);
      assert EntriesOf(t, n, w) == ks + [n - 1];
    } else {
      assert EntriesOf(t, n, w) == ks;
    }
  }

  lemma GroupListsSnoc(group: seq<PaneBinding>, t: Topology, ks: seq<nat>, b: PaneBinding, k: nat)
    requires (forall j :: 0 <= j < |ks| ==> ks[j] < |t.panes|) && k < |t.panes| && GroupLists(group, t, ks)
    requires b.rawId == t.panes[k].id && b.active == ShownActive(t.panes[k])
    ensures GroupLists(group + [b], t, ks + [k])
  {
  }

  lemma OrderMore(s: Scan, t: Topology, n: nat)
    requires 0 < n <= |t.panes| && InOrder(s, t, n - 1) && s.meta.Keys == ListedWindows(t, n - 1)
    ensures InOrder(ScanPane(s, t, t.panes[n - 1]), t, n)
  {
    hide NotePane, NoteWindow, GroupOf;
    ListedWindowIds(t, n - 1, n - 1);
    assert FirstOfWindow(t, n - 1) <==> t.panes[n - 1].windowId !in s.meta;
  }

  lemma CollectsMore(s: Scan, t: Topology, n: nat, b: PaneBinding)
    requires 0 < n <= |t.panes| && Collects(s, t, n - 1) && s.meta.Keys == ListedWindows(t, n - 1)
    requires var p := t.panes[n - 1]; b.rawId == p.id && b.active == ShownActive(p)
    requires ScanPane(s, t, t.panes[n - 1]).grouped
          == s.grouped[t.panes[n - 1].windowId := GroupOf(s.grouped, t.panes[n - 1].windowId) + [b]]
    ensures Collects(ScanPane(s, t, t.panes[n - 1]), t, n)
  {
    hide ScanPane, GroupLists, GroupOf, InOrder;
    OrderMore(s, t, n);
    var s' := ScanPane(s, t, t.panes[n - 1]);
    forall w
      ensures GroupLists(GroupOf(s'.grouped, w), t, EntriesOf(t, n, w))
    {
      assert GroupLists(GroupOf(s.grouped, w), t, EntriesOf(t, n - 1, w));
      GroupListsMore(s.grouped, t, n, b, w);
    }
  }

  lemma CollectsNone(i: Identity, next: Ref, t: Topology)
    ensures Collects(Scan(i, next, [], map[], map[]), t, 0)
  {
  }

  lemma {:induction false} ScanCollects(i: Identity, next: Ref, t: Topology, n: nat)
    requires n <= |t.panes| && IdentityOk(i, next)
    ensures Collects(ScanAll(i, next, t, n), t, n)
  {
    hide ScanPane, Collects, IdentityOk, EntriesOk, GroupsOk, Descends, GroupOf;
    if n == 0 {
      CollectsNone(i, next, t);
    } else {
      var s := ScanAll(i, next, t, n - 1);
      ScanCollects(i, next, t, n - 1);
      ScanKeeps(i, next, t, n - 1);
      var b := ScanPaneBinding(s, t, t.panes[n - 1]);
      CollectsMore(s, t, n, b);
    }
  }

  lemma {:induction false} ActiveIsLastShown(group: seq<PaneBinding>, t: Topology, ks: seq<nat>, paneRefs: map<string, Ref>)
    requires (forall j :: 0 <= j < |ks| ==> ks[j] < |t.panes|) && GroupLists(group, t, ks)
    requires forall j :: 0 <= j < |group| ==> group[j].rawId in paneRefs && paneRefs[group[j].rawId] == group[j].ref
    ensures ActiveRef(group) == LastShown(paneRefs, t, ks)
  {
    if ks != [] {
      ActiveIsLastShown(group[..|group| - 1], t, ks[..|ks| - 1], paneRefs);
    }
  }

  lemma ActiveShownMore(v: PublicTopology, w: PublicWindow, v': PublicTopology)
    requires ActiveShown(v) && v'.windows == v.windows + [w]
    requires if w.active then v' == PublicTopology(v'.windows, w.ref, w.activePaneRef, w.width, w.height) else v' == v.(windows := v'.windows)
    ensures ActiveShown(v')
  {
    var n := |v.windows|;
    assert v'.windows[n] == w;
    forall k: nat | LastOpen(v'.windows, k) && k < n
      ensures LastOpen(v.windows, k)
    {
      assert !v'.windows[n].active;
      assert forall j :: k < j < n ==> v.windows[j] == v'.windows[j];
    }
    assert forall k :: 0 <= k < n ==> v.windows[k] == v'.windows[k];
  }

  lemma NothingShown()
    ensures ActiveShown(PublicTopology([], NO_REF, NO_REF, 0, 0))
  {
  }

  lemma {:induction false} SummaryShows(s: Scan, windowRefs: map<string, Ref>, n: nat)
    requires n <= |s.order| && forall w :: w in s.order ==> w in s.meta && w in windowRefs
    ensures var v := Summary(s, windowRefs, n);
            && |v.windows| == n && (forall k :: 0 <= k < n ==> v.windows[k] == WindowView(s, windowRefs, s.order[k]))
            && ActiveShown(v)
  {
    hide WindowView, ActiveShown;
    if n > 0 {
      SummaryShows(s, windowRefs, n - 1);
      ActiveShownMore(Summary(s, windowRefs, n - 1), WindowView(s, windowRefs, s.order[n - 1]), Summary(s, windowRefs, n));
    } else {
      NothingShown();
    }
  }

  /** What a caller is shown, said from the listing and the references alone: each listed
      window once, as its first entry describes it, with the number of its entries and the
      last of them that is active; and of the whole the last open window. */
  lemma ViewShowsListing(i: Identity, next: Ref, t: Topology)
    requires IdentityOk(i, next)
    ensures var v, i', ks := View(i, next, t), UpdatedIdentity(i, next, t), Firsts(t, |t.panes|);
            && |v.windows| == |ks| && (forall j :: 0 <= j < |ks| ==> v.windows[j] == WindowShown(i', t, ks[j]))
            && ActiveShown(v)
  {
    hide ScanPane, Prune, IdentityOk, ScanOk, ActiveShown, LastShown, ActiveRef;
    var n := |t.panes|;
    var s, i', ks := ScanAll(i, next, t, n), UpdatedIdentity(i, next, t), Firsts(t, n);
    ViewDefined(i, next, t);
    ScanCollects(i, next, t, n);
    SummaryShows(s, i'.windowRefs, |s.order|);
    forall j | 0 <= j < |ks|
      ensures WindowView(s, i'.windowRefs, s.order[j]) == WindowShown(i', t, ks[j])
    {
      GroupShown(i, next, t, s.order[j]);
    }
  }

  lemma GroupShown(i: Identity, next: Ref, t: Topology, w: string)
    requires IdentityOk(i, next)
    ensures var ks, group := EntriesOf(t, |t.panes|, w), GroupOf(ScanAll(i, next, t, |t.panes|).grouped, w);
            |group| == |ks| && ActiveRef(group) == LastShown(UpdatedIdentity(i, next, t).paneRefs, t, ks)
  {
    hide ScanPane, IdentityOk;
    var n := |t.panes|;
    var s := ScanAll(i, next, t, n);
    ScanKeeps(i, next, t, n);
    ScanCollects(i, next, t, n);
    assert GroupLists(GroupOf(s.grouped, w), t, EntriesOf(t, n, w));
    StandingRefs(s, t, w, UpdatedIdentity(i, next, t).paneRefs);
  }

  /** References kept for all listed panes are those the loop had grouped. */
  lemma StandingRefs(s: Scan, t: Topology, w: string, paneRefs: map<string, Ref>)
    requires GroupsOk(s.identity, t, |t.panes|, s.grouped)
    requires GroupLists(GroupOf(s.grouped, w), t, EntriesOf(t, |t.panes|, w))
    requires paneRefs == map raw | raw in s.identity.paneRefs && raw in ListedPanes(t, |t.panes|) :: s.identity.paneRefs[raw]
    ensures ActiveRef(GroupOf(s.grouped, w)) == LastShown(paneRefs, t, EntriesOf(t, |t.panes|, w))
  {
    hide ScanPane, ActiveRef, LastShown;
    var n, group, ks := |t.panes|, GroupOf(s.grouped, w), EntriesOf(t, |t.panes|, w);
    forall j | 0 <= j < |group|
      ensures group[j].rawId in paneRefs && paneRefs[group[j].rawId] == group[j].ref
    {
      assert Stands(s.identity, t, n, w, group[j]);
      Listed(t, n, ks[j]);
    }
    ActiveIsLastShown(group, t, ks, paneRefs);
  }

  lemma NotedKeepsRef(i: Identity, next: Ref, i': Identity, next': Ref, t: Topology, p: Pane, raw: string)
    requires Noted(i, next, i', next', t, p) && Current(i, t, raw)
    ensures Current(i', t, raw) && i'.paneRefs[raw] == i.paneRefs[raw]
  {
    if raw != p.id { assert SameBinding(i, i', raw); }
  }

  /** A pane that the present server already had keeps its reference through the loop. */
  lemma {:induction false} ScanKeepsRef(i: Identity, next: Ref, t: Topology, n: nat, raw: string)
    requires n <= |t.panes| && IdentityOk(i, next) && Current(i, t, raw)
    ensures var i' := ScanAll(i, next, t, n).identity; Current(i', t, raw) && i'.paneRefs[raw] == i.paneRefs[raw]
  {
    hide ScanPane, Noted, Current, PanesOk, WindowsOk, EntriesOk, GroupsOk, OrderOk, Descends;
    if n > 0 {
      var s := ScanAll(i, next, t, n - 1);
      var s' := ScanAll(i, next, t, n);
      ScanKeepsRef(i, next, t, n - 1, raw);
      ScanKeeps(i, next, t, n - 1);
      ScanPaneNotes(s, t, t.panes[n - 1]);
      NotedKeepsRef(s.identity, s.next, s'.identity, s'.next, t, t.panes[n - 1], raw);
    }
  }

  lemma {:induction false} ScanKeepsWindow(i: Identity, next: Ref, t: Topology, n: nat, w: string)
    requires n <= |t.panes| && IdentityOk(i, next) && w in i.windowRefs
    ensures var i' := ScanAll(i, next, t, n).identity; w in i'.windowRefs && i'.windowRefs[w] == i.windowRefs[w]
  {
    if n > 0 {
      ScanKeepsWindow(i, next, t, n - 1, w);
    }
  }

  /** A pane listed again under the same server keeps its reference, and so does a window
      listed again. */
  lemma ListedAgain(i: Identity, next: Ref, t: Topology, k: nat)
    requires IdentityOk(i, next) && k < |t.panes|
    ensures var p, i' := t.panes[k], UpdatedIdentity(i, next, t);
            && p.id in i'.paneRefs && p.windowId in i'.windowRefs
            && (Current(i, t, p.id) ==> i'.paneRefs[p.id] == i.paneRefs[p.id])
            && (p.windowId in i.windowRefs ==> i'.windowRefs[p.windowId] == i.windowRefs[p.windowId])
  {
    hide ScanPane, IdentityOk;
    var n, p := |t.panes|, t.panes[k];
    UpdateKeeps(i, next, t);
    Listed(t, n, k);
    ListedWindowIds(t, n, k);
    if Current(i, t, p.id) { ScanKeepsRef(i, next, t, n, p.id); }
    if p.windowId in i.windowRefs { ScanKeepsWindow(i, next, t, n, p.windowId); }
  }

  /** Every binding after an update is of the server that was listed. */
  lemma BoundToServer(i: Identity, next: Ref, t: Topology, ref: Ref)
    requires IdentityOk(i, next) && ref in UpdatedIdentity(i, next, t).panes
    ensures var b := UpdatedIdentity(i, next, t).panes[ref];
            && b.ref == ref && b.generation.paneId == b.rawId
            && b.generation.serverStart == t.serverStart && b.generation.serverPid == t.serverPid
  {
    hide UpdatedIdentity, SupplyAfter;
    UpdateKeeps(i, next, t);
    BoundNow(UpdatedIdentity(i, next, t), SupplyAfter(i, next, t), t, ref);
  }

  /** ... and says what the last entry of its pane says. */
  lemma BoundAsListed(i: Identity, next: Ref, t: Topology, k: nat)
    requires IdentityOk(i, next) && k < |t.panes|
    requires forall j :: k < j < |t.panes| ==> t.panes[j].id != t.panes[k].id
    ensures var p, i' := t.panes[k], UpdatedIdentity(i, next, t);
            && p.id in i'.paneRefs && i'.paneRefs[p.id] in i'.panes
            && var b := i'.panes[i'.paneRefs[p.id]];
            && b.ref == i'.paneRefs[p.id] && b.rawId == p.id && b.windowId == p.windowId
            && (b.active <==> p.active && p.windowOpen)
  {
    hide UpdatedIdentity, SupplyAfter;
    UpdateKeeps(i, next, t);
    assert LastEntry(t, |t.panes|, k);
  }

  // ----- The active pane

  /** The last of these entries that is shown active. */
  function LastShownEntry(t: Topology, ks: seq<nat>): (k: Option<nat>)
    requires forall j :: 0 <= j < |ks| ==> ks[j] < |t.panes|
    ensures k.Some? ==> k.value in ks && k.value < |t.panes| && ShownActive(t.panes[k.value])
  {
    if ks == [] then None
    else if ShownActive(t.panes[ks[|ks| - 1]]) then Some(ks[|ks| - 1])
    else LastShownEntry(t, ks[..|ks| - 1])
  }

  /** The last of these entries whose window was listed open. */
  function LastOpenEntry(t: Topology, ks: seq<nat>): (k: Option<nat>)
    requires forall j :: 0 <= j < |ks| ==> ks[j] < |t.panes|
    ensures k.Some? ==> k.value < |t.panes|
  {
    if ks == [] then None
    else if t.panes[ks[|ks| - 1]].windowOpen then Some(ks[|ks| - 1])
    else LastOpenEntry(t, ks[..|ks| - 1])
  }

  /** The entry that makes a pane the active one: the last one shown active in the last open
      window, where a window is open as its first entry says. */
  function ActiveEntry(t: Topology): (k: Option<nat>)
    ensures k.Some? ==> k.value < |t.panes| && ShownActive(t.panes[k.value])
  {
    var w := LastOpenEntry(t, Firsts(t, |t.panes|));
    if w.None? then None else LastShownEntry(t, EntriesOf(t, |t.panes|, t.panes[w.value].windowId))
  }

  ghost predicate LastSaysActive(t: Topology, raw: string) {
    exists k: nat :: LastEntry(t, |t.panes|, k) && t.panes[k].id == raw && ShownActive(t.panes[k])
  }

  lemma {:induction false} ShownIsEntry(paneRefs: map<string, Ref>, t: Topology, ks: seq<nat>)
    requires forall j :: 0 <= j < |ks| ==> ks[j] < |t.panes|
    ensures var k := LastShownEntry(t, ks);
            LastShown(paneRefs, t, ks) == if k.None? then NO_REF else RefOf(paneRefs, t.panes[k.value].id)
  {
    if ks != [] { ShownIsEntry(paneRefs, t, ks[..|ks| - 1]); }
  }

  lemma {:induction false} OpenIsEntry(t: Topology, ks: seq<nat>)
    requires forall j :: 0 <= j < |ks| ==> ks[j] < |t.panes|
    ensures var k := LastOpenEntry(t, ks);
            if k.None? then forall j :: 0 <= j < |ks| ==> !t.panes[ks[j]].windowOpen
            else exists j: nat :: j < |ks| && ks[j] == k.value && t.panes[ks[j]].windowOpen
                                  && forall l :: j < l < |ks| ==> !t.panes[ks[l]].windowOpen
  {
    if ks != [] && !t.panes[ks[|ks| - 1]].windowOpen {
      var front := ks[..|ks| - 1];
      OpenIsEntry(t, front);
      if LastOpenEntry(t, front).Some? {
        var j: nat :| j < |front| && front[j] == LastOpenEntry(t, front).value && t.panes[front[j]].windowOpen
                      && forall l :: j < l < |front| ==> !t.panes[front[l]].windowOpen;
        assert ks[j] == front[j] && forall l :: j < l < |front| ==> ks[l] == front[l];
      } else {
        assert forall j :: 0 <= j < |front| ==> ks[j] == front[j];
      }
    } else if ks != [] {
      assert ks[|ks| - 1] == LastOpenEntry(t, ks).value;
    }
  }

  lemma {:induction false} LastEntryExists(t: Topology, n: nat, k: nat)
    requires k < n <= |t.panes|
    ensures exists l: nat :: LastEntry(t, n, l) && t.panes[l].id == t.panes[k].id
    decreases n - k
  {
    if !LastEntry(t, n, k) {
      var j :| k < j < n && t.panes[j].id == t.panes[k].id;
      LastEntryExists(t, n, j);
    }
  }

  /** The reference shown as active, from the listing alone. */
  lemma ActiveRefShown(i: Identity, next: Ref, t: Topology)
    requires IdentityOk(i, next)
    ensures var k := ActiveEntry(t);
            View(i, next, t).activePaneRef ==
            if k.None? then NO_REF else RefOf(UpdatedIdentity(i, next, t).paneRefs, t.panes[k.value].id)
  {
    hide ScanPane, Prune, ScanOk, IdentityOk, View, UpdatedIdentity, LastShownEntry, LastShown, Firsts, EntriesOf, FirstOfWindow;
    var v, i', ks := View(i, next, t), UpdatedIdentity(i, next, t), Firsts(t, |t.panes|);
    ViewShowsListing(i, next, t);
    OpenIsEntry(t, ks);
    var w := LastOpenEntry(t, ks);
    if w.None? {
      assert forall j :: 0 <= j < |ks| ==> v.windows[j] == WindowShown(i', t, ks[j]);
    } else {
      var j: nat :| j < |ks| && ks[j] == w.value && t.panes[ks[j]].windowOpen
                    && forall l :: j < l < |ks| ==> !t.panes[ks[l]].windowOpen;
      assert v.windows[j] == WindowShown(i', t, ks[j]);
      assert LastOpen(v.windows, j);
      ShownIsEntry(i'.paneRefs, t, EntriesOf(t, |t.panes|, t.panes[w.value].windowId));
    }
  }

  /** A pane is handed out as active exactly when the listing has such an entry; the reference
      is bound to that entry's pane, and the binding is active exactly when the last entry of
      the pane is. */
  lemma ActivePaneResolves(i: Identity, next: Ref, t: Topology)
    requires IdentityOk(i, next)
    ensures var ref, panes, k := View(i, next, t).activePaneRef, UpdatedIdentity(i, next, t).panes, ActiveEntry(t);
            && (ref != NO_REF <==> k.Some?)
            && (k.Some? ==>
                  && ref in panes && panes[ref].rawId == t.panes[k.value].id
                  && (panes[ref].active <==> LastSaysActive(t, t.panes[k.value].id)))
  {
    hide ScanPane, ScanAll, Prune, UpdatedIdentity, View, ActiveEntry, ListedPanes, ListedWindows, WindowsOk;
    var n, i', k := |t.panes|, UpdatedIdentity(i, next, t), ActiveEntry(t);
    ActiveRefShown(i, next, t);
    UpdateKeeps(i, next, t);
    if k.Some? {
      var raw := t.panes[k.value].id;
      LastEntryExists(t, n, k.value);
      var l: nat :| LastEntry(t, n, l) && t.panes[l].id == raw;
      assert BoundAs(i', t, t.panes[l]);
      OneLastEntry(t, l);
    }
  }

  /** An update has something to show exactly when a pane is shown active in the last open window. */
  lemma CompleteIf(i: Identity, next: Ref, t: Topology)
    requires IdentityOk(i, next)
    ensures Complete(View(i, next, t)) <==> ActiveEntry(t).Some?
  {
    hide ScanPane, Prune, ScanOk, IdentityOk, View, UpdatedIdentity, LastShownEntry, LastShown, Firsts, EntriesOf, FirstOfWindow;
    var v, i', ks := View(i, next, t), UpdatedIdentity(i, next, t), Firsts(t, |t.panes|);
    ActivePaneResolves(i, next, t);
    if ActiveEntry(t).Some? {
      ViewShowsListing(i, next, t);
      OpenIsEntry(t, ks);
      var j: nat :| j < |ks| && ks[j] == LastOpenEntry(t, ks).value && t.panes[ks[j]].windowOpen
                    && forall l :: j < l < |ks| ==> !t.panes[ks[l]].windowOpen;
      assert v.windows[j] == WindowShown(i', t, ks[j]) && LastOpen(v.windows, j);
      WindowHasRef(i, next, t, ks[j]);
    }
  }

  lemma WindowHasRef(i: Identity, next: Ref, t: Topology, k: nat)
    requires IdentityOk(i, next) && k < |t.panes|
    ensures RefOf(UpdatedIdentity(i, next, t).windowRefs, t.panes[k].windowId) != NO_REF
  {
    hide UpdatedIdentity, SupplyAfter;
    UpdateKeeps(i, next, t);
    ListedWindowIds(t, |t.panes|, k);
  }

  lemma OneLastEntry(t: Topology, l: nat)
    requires LastEntry(t, |t.panes|, l)
    ensures LastSaysActive(t, t.panes[l].id) <==> ShownActive(t.panes[l])
  {
  }

  ghost predicate DistinctPanes(t: Topology) {
    forall j, k :: 0 <= j < k < |t.panes| ==> t.panes[j].id != t.panes[k].id
  }

  /** With no pane listed twice, the active pane reference resolves to an active binding. */
  lemma ActivePaneIsActive(i: Identity, next: Ref, t: Topology)
    requires IdentityOk(i, next) && View(i, next, t).activePaneRef != NO_REF && DistinctPanes(t)
    ensures var ref, panes := View(i, next, t).activePaneRef, UpdatedIdentity(i, next, t).panes;
            ref in panes && panes[ref].active
  {
    ActivePaneResolves(i, next, t);
    assert LastEntry(t, |t.panes|, ActiveEntry(t).value);
  }

  // ----- The code of one update

  method DropDead<B>(bindings: map<Ref, B>, refs: map<string, Ref>, live: set<string>)
    returns (bindings': map<Ref, B>, refs': map<string, Ref>)
    ensures bindings' == bindings - (set raw | raw in refs && raw !in live :: refs[raw])
    ensures refs' == map raw | raw in refs && raw in live :: refs[raw]
  {
    bindings', refs' := bindings, refs;
    var left := refs.Keys;
    while left != {}
      invariant left <= refs.Keys
      invariant bindings' == bindings - (set raw | raw in refs && raw !in left && raw !in live :: refs[raw])
      invariant refs' == map raw | raw in refs && (raw in left || raw in live) :: refs[raw]
      decreases left
    {
      var raw :| raw in left;
      if raw !in live {
        refs' := refs' - {raw};
        bindings' := bindings' - {refs[raw]};
      }
      left := left - {raw};
    }
  }

  method LastActive(bindings: seq<PaneBinding>) returns (ref: Ref)
    ensures ref == ActiveRef(bindings)
  {
    ref := NO_REF;
    for k := 0 to |bindings|
      invariant ref == ActiveRef(bindings[..k])
    {
      assert bindings[..k + 1][..k] == bindings[..k];
      if bindings[k].active {
        ref := bindings[k].ref;
      }
    }
    assert bindings[..|bindings|] == bindings;
  }

  /** One listed entry. */
  method NoteEntry(s: Scan, t: Topology, pane: Pane) returns (s': Scan)
    ensures s' == ScanPane(s, t, pane)
  {
    var order, meta, grouped, next := s.order, s.meta, s.grouped, s.next;
    var Identity(canonical, panes, paneRefs, windows, windowRefs) := s.identity;
    if pane.windowId !in meta {
      order := order + [pane.windowId];
      meta := meta[pane.windowId := pane];
    }
    if pane.windowId !in windowRefs {
      windowRefs := windowRefs[pane.windowId := next];
      windows := windows[next := WindowBinding(next, pane.windowId)];
      next := next + 1;
    }
    var generation := PaneGeneration(t.serverStart, t.serverPid, pane.id);
    var paneRef, known := NO_REF, pane.id in paneRefs;
    if known {
      paneRef := paneRefs[pane.id];
      if paneRef !in panes || panes[paneRef].generation != generation {
        panes := panes - {paneRef};
        paneRefs := paneRefs - {pane.id};
        known := false;
      }
    }
    if !known {
      paneRef := next;
      next := next + 1;
      paneRefs := paneRefs[pane.id := paneRef];
    }
    var binding := PaneBinding(paneRef, pane.id, pane.windowId, pane.active && pane.windowOpen, generation);
    panes := panes[paneRef := binding];
    grouped := grouped[pane.windowId := GroupOf(grouped, pane.windowId) + [binding]];
    s' := Scan(Identity(canonical, panes, paneRefs, windows, windowRefs), next, order, meta, grouped);
  }

  method Update(i: Identity, next: Ref, t: Topology) returns (i': Identity, next': Ref, r: Result<PublicTopology>)
    requires IdentityOk(i, next)
    ensures i' == UpdatedIdentity(i, next, t) && next' == SupplyAfter(i, next, t)
    ensures r == if Complete(View(i, next, t)) then Ok(View(i, next, t)) else Stale
  {
    var s := Scan(i, next, [], map[], map[]);
    var livePanes: set<string>, liveWindows: set<string> := {}, {};
    for k := 0 to |t.panes|
      invariant s == ScanAll(i, next, t, k) && livePanes == ListedPanes(t, k) && liveWindows == ListedWindows(t, k)
    {
      livePanes := livePanes + {t.panes[k].id};
      liveWindows := liveWindows + {t.panes[k].windowId};
      s := NoteEntry(s, t, t.panes[k]);
    }
    next' := s.next;
    var panes, paneRefs := DropDead(s.identity.panes, s.identity.paneRefs, livePanes);
    var windows, windowRefs := DropDead(s.identity.windows, s.identity.windowRefs, liveWindows);
    i' := Identity(s.identity.canonical, panes, paneRefs, windows, windowRefs);
    assert i' == UpdatedIdentity(i, next, t);
    ViewDefined(i, next, t);
    var view := Summarize(s, windowRefs);
    r := if Complete(view) then Ok(view) else Stale;
  }

  method Summarize(s: Scan, windowRefs: map<string, Ref>) returns (view: PublicTopology)
    requires forall w :: w in s.order ==> w in s.meta && w in windowRefs
    ensures view == Summary(s, windowRefs, |s.order|)
  {
    view := PublicTopology([], NO_REF, NO_REF, 0, 0);
    for n := 0 to |s.order|
      invariant view == Summary(s, windowRefs, n)
    {
      var w := s.order[n];
      var bindings := GroupOf(s.grouped, w);
      var active := LastActive(bindings);
      var window := PublicWindow(windowRefs[w], s.meta[w].windowName, s.meta[w].windowOpen, |bindings|, active,
                                 s.meta[w].width, s.meta[w].height);
      if window.active {
        view := view.(activeWindowRef := window.ref, activePaneRef := window.activePaneRef,
                      windowWidth := window.width, windowHeight := window.height);
      }
      view := view.(windows := view.windows + [window]);
    }
  }

  function ListedTwice(server: string, pid: int): Topology {
    var first := Pane("%1", "@1", "w", true, true, 80, 24);
    Topology(server, pid, [first, first.(windowOpen := false)])
  }

  lemma TwiceListedScan(server: string, pid: int)
    ensures var s := ScanAll(NewIdentity("s"), 1, ListedTwice(server, pid), 2);
            && s.order == ["@1"] && s.meta.Keys == {"@1"} && s.meta["@1"].windowOpen && s.identity.windowRefs == map["@1" := 1]
            && ActiveRef(GroupOf(s.grouped, "@1")) == 2
  {
    var t, start := ListedTwice(server, pid), Scan(NewIdentity("s"), 1, [], map[], map[]);
    var s1 := ScanPane(start, t, t.panes[0]);
    assert ScanAll(start.identity, 1, t, 1) == s1 && |s1.grouped["@1"]| == 1;
    var s2 := ScanPane(s1, t, t.panes[1]);
    assert ScanAll(start.identity, 1, t, 2) == s2;
    var active, inactive := s1.grouped["@1"][0], s2.identity.panes[2];
    assert s2.grouped["@1"] == [active, inactive] && active.active && active.ref == 2 && !inactive.active;
    assert [active, inactive][..1] == [active];
    assert ActiveRef([active, inactive]) == ActiveRef([active]);
  }

  /** A window linked twice into the session lists its pane twice, once in the open window and
      once not: the pane is then handed out as the active one but bound as inactive. */
  lemma TwiceListedPane(server: string, pid: int)
    ensures var i, t := NewIdentity("s"), ListedTwice(server, pid);
            && IdentityOk(i, 1) && Complete(View(i, 1, t)) && View(i, 1, t).activePaneRef in UpdatedIdentity(i, 1, t).panes
            && !UpdatedIdentity(i, 1, t).panes[View(i, 1, t).activePaneRef].active
  {
    hide ScanPane;
    var i, t := NewIdentity("s"), ListedTwice(server, pid);
    TwiceListedScan(server, pid);
    ViewDefined(i, 1, t);
    assert t.panes[1].windowId == "@1" && "@1" in ListedWindows(t, 2);
    assert Summary(ScanAll(i, 1, t, 2), UpdatedIdentity(i, 1, t).windowRefs, 1).activePaneRef == 2;
    ActivePaneResolves(i, 1, t);
    assert LastEntry(t, 2, 1);
  }

  // ----- All sessions

  datatype Store = Store(sessions: map<string, Identity>, next: Ref)

  datatype Event = Refresh(session: string, canonical: string, topology: Topology) | Forget(session: string)

  ghost predicate Bound(st: Store, x: string, r: Ref) { x in st.sessions && r in st.sessions[x].panes }

  ghost predicate StoreOk(st: Store) {
    && st.next >= 1
    && (forall x :: x in st.sessions ==> IdentityOk(st.sessions[x], st.next))
    && (forall x, y, r: Ref :: Bound(st, x, r) && Bound(st, y, r) ==> x == y)
  }

  function Before(st: Store, session: string, canonical: string): Identity {
    if session in st.sessions && st.sessions[session].canonical == canonical then st.sessions[session] else NewIdentity(canonical)
  }

  ghost function Step(st: Store, e: Event): Store {
    match e
    case Refresh(x, canonical, t) =>
      var i := Before(st, x, canonical);
      Store(st.sessions[x := UpdatedIdentity(i, st.next, t)], SupplyAfter(i, st.next, t))
    case Forget(x) => Store(st.sessions - {x}, st.next)
  }

  /** Every reference bound in b is new since a, or was bound in a in the same session to the
      same pane of the same server. */
  ghost predicate Inherits(a: Store, b: Store) {
    && a.next <= b.next
    && forall x, r: Ref :: Bound(b, x, r) && r < a.next ==>
         && Bound(a, x, r)
         && b.sessions[x].panes[r].rawId == a.sessions[x].panes[r].rawId
         && b.sessions[x].panes[r].generation == a.sessions[x].panes[r].generation
  }

  lemma IdentityLater(i: Identity, next: Ref, next': Ref)
    requires IdentityOk(i, next) && next <= next'
    ensures IdentityOk(i, next')
  {
  }

  lemma BeforeOk(st: Store, x: string, canonical: string)
    requires StoreOk(st)
    ensures IdentityOk(Before(st, x, canonical), st.next)
    ensures forall r :: r in Before(st, x, canonical).panes ==>
              Bound(st, x, r) && st.sessions[x].panes[r] == Before(st, x, canonical).panes[r]
  {
  }

  /** One session's identity is replaced by one whose references are its own or new. */
  lemma ReplaceKeeps(st: Store, x: string, i: Identity, i': Identity, next': Ref)
    requires StoreOk(st) && IdentityOk(i', next') && st.next <= next' && Descends(i.panes, st.next, i'.panes)
    requires forall r :: r in i.panes ==> Bound(st, x, r) && st.sessions[x].panes[r] == i.panes[r]
    ensures StoreOk(Store(st.sessions[x := i'], next'))
  {
    var st' := Store(st.sessions[x := i'], next');
    forall y | y in st'.sessions
      ensures IdentityOk(st'.sessions[y], next')
    {
      if y != x { IdentityLater(st.sessions[y], st.next, next'); }
    }
    forall y, z, r: Ref | Bound(st', y, r) && Bound(st', z, r)
      ensures y == z
    {
      if r < st.next {
        assert Bound(st, y, r) && Bound(st, z, r);
      } else {
        assert y == x && z == x;
      }
    }
  }

  lemma ReplaceInherits(st: Store, x: string, i: Identity, i': Identity, next': Ref)
    requires st.next <= next' && Descends(i.panes, st.next, i'.panes)
    requires forall r :: r in i.panes ==> Bound(st, x, r) && st.sessions[x].panes[r] == i.panes[r]
    ensures Inherits(st, Store(st.sessions[x := i'], next'))
  {
    var st' := Store(st.sessions[x := i'], next');
    forall y, r: Ref | Bound(st', y, r) && r < st.next
      ensures Bound(st, y, r) && st'.sessions[y].panes[r].rawId == st.sessions[y].panes[r].rawId
      ensures st'.sessions[y].panes[r].generation == st.sessions[y].panes[r].generation
    {
      if y == x { assert r in i.panes; }
    }
  }

  lemma RefreshKeeps(st: Store, x: string, canonical: string, t: Topology)
    requires StoreOk(st)
    ensures StoreOk(Step(st, Refresh(x, canonical, t))) && Inherits(st, Step(st, Refresh(x, canonical, t)))
  {
    var i := Before(st, x, canonical);
    BeforeOk(st, x, canonical);
    UpdateKeeps(i, st.next, t);
    ReplaceKeeps(st, x, i, UpdatedIdentity(i, st.next, t), SupplyAfter(i, st.next, t));
    ReplaceInherits(st, x, i, UpdatedIdentity(i, st.next, t), SupplyAfter(i, st.next, t));
  }

  lemma StepKeeps(st: Store, e: Event)
    requires StoreOk(st)
    ensures StoreOk(Step(st, e)) && Inherits(st, Step(st, e))
  {
    match e
    case Refresh(x, canonical, t) => RefreshKeeps(st, x, canonical, t);
    case Forget(x) =>
      var st' := Step(st, e);
      assert forall y, r :: Bound(st', y, r) ==> Bound(st, y, r) && st'.sessions[y] == st.sessions[y];
  }

  ghost predicate IsRun(states: seq<Store>, events: seq<Event>) {
    && |states| == |events| + 1 && states[0] == Store(map[], 1)
    && forall k :: 0 <= k < |events| ==> states[k + 1] == Step(states[k], events[k])
  }

  lemma {:induction false} RunKeeps(states: seq<Store>, events: seq<Event>, n: nat)
    requires IsRun(states, events) && n < |states|
    ensures StoreOk(states[n])
  {
    hide Step, Inherits;
    if n > 0 {
      RunKeeps(states, events, n - 1);
      StepKeeps(states[n - 1], events[n - 1]);
    }
  }

  lemma InheritsTransitive(a: Store, b: Store, c: Store)
    requires Inherits(a, b) && Inherits(b, c)
    ensures Inherits(a, c)
  {
  }

  lemma {:induction false} RunInherits(states: seq<Store>, events: seq<Event>, j: nat, k: nat)
    requires IsRun(states, events) && j <= k < |states|
    ensures Inherits(states[j], states[k])
    decreases k - j
  {
    hide Step, StoreOk, Inherits;
    if j < k {
      RunInherits(states, events, j, k - 1);
      RunKeeps(states, events, k - 1);
      StepKeeps(states[k - 1], events[k - 1]);
      InheritsTransitive(states[j], states[k - 1], states[k]);
    } else {
      InheritsReflexive(states[j]);
    }
  }

  lemma InheritsReflexive(st: Store)
    ensures Inherits(st, st)
  {
  }

  /** Over any run a pane reference means one session, one raw pane and one server
      generation for life. */
  lemma PaneRefForLife(states: seq<Store>, events: seq<Event>, j: nat, k: nat, x: string, y: string, r: Ref)
    requires IsRun(states, events) && j <= k < |states| && Bound(states[j], x, r) && Bound(states[k], y, r)
    ensures x == y && states[j].sessions[x].panes[r].rawId == states[k].sessions[y].panes[r].rawId
    ensures states[j].sessions[x].panes[r].generation == states[k].sessions[y].panes[r].generation
  {
    RunKeeps(states, events, j);
    RunInherits(states, events, j, k);
    assert Bound(states[j], y, r);
  }

  /** ... and once retired it never comes back. */
  lemma RetiredForGood(states: seq<Store>, events: seq<Event>, j: nat, k: nat, n: nat, x: string, y: string, r: Ref)
    requires IsRun(states, events) && j <= k <= n < |states| && Bound(states[j], x, r) && !Bound(states[k], x, r)
    ensures !Bound(states[n], y, r)
  {
    RunKeeps(states, events, j);
    RunInherits(states, events, j, k);
    RunInherits(states, events, k, n);
    if Bound(states[n], y, r) {
      PaneRefForLife(states, events, j, n, x, y, r);
    }
  }

  /** When a session is listed under another server than before, as after a restart of tmux, none of
      the references it had is left, in any session. */
  lemma RestartRetires(states: seq<Store>, events: seq<Event>, j: nat, k: nat, x: string, y: string, r: Ref)
    requires IsRun(states, events) && j < k < |events|
    requires events[j].Refresh? && events[j].session == x && events[k].Refresh? && events[k].session == x
    requires var t, u := events[j].topology, events[k].topology; t.serverStart != u.serverStart || t.serverPid != u.serverPid
    requires Bound(states[j + 1], x, r)
    ensures !Bound(states[k + 1], y, r)
  {
    hide UpdatedIdentity, SupplyAfter, Before, IdentityOk;
    RunKeeps(states, events, j);
    RunKeeps(states, events, k);
    RefreshBinds(states[j], x, events[j].canonical, events[j].topology, r);
    if Bound(states[k + 1], y, r) {
      PaneRefForLife(states, events, j + 1, k + 1, x, y, r);
      RefreshBinds(states[k], x, events[k].canonical, events[k].topology, r);
    }
  }

  lemma RefreshBinds(st: Store, x: string, canonical: string, t: Topology, r: Ref)
    requires StoreOk(st)
    ensures var st' := Step(st, Refresh(x, canonical, t));
            Bound(st', x, r) ==> var g := st'.sessions[x].panes[r].generation; g.serverStart == t.serverStart && g.serverPid == t.serverPid
  {
    BeforeOk(st, x, canonical);
    var i := Before(st, x, canonical);
    if r in UpdatedIdentity(i, st.next, t).panes { BoundToServer(i, st.next, t, r); }
  }

  /** When a session's name belongs to another canonical session than before, it starts afresh: none
      of the references it had is left in it. */
  lemma RenamedRetires(st: Store, x: string, canonical: string, t: Topology, r: Ref)
    requires StoreOk(st) && x in st.sessions && st.sessions[x].canonical != canonical && Bound(st, x, r)
    ensures var st' := Step(st, Refresh(x, canonical, t)); x in st'.sessions && st'.sessions[x].canonical == canonical && !Bound(st', x, r)
  {
    BeforeOk(st, x, canonical);
    UpdateKeeps(NewIdentity(canonical), st.next, t);
  }

  /** ... and otherwise what is listed again keeps its reference. */
  lemma SameNameKeeps(st: Store, x: string, canonical: string, t: Topology, k: nat)
    requires StoreOk(st) && x in st.sessions && st.sessions[x].canonical == canonical && k < |t.panes|
    ensures var st', raw := Step(st, Refresh(x, canonical, t)), t.panes[k].id;
            && x in st'.sessions && raw in st'.sessions[x].paneRefs
            && (Current(st.sessions[x], t, raw) ==> st'.sessions[x].paneRefs[raw] == st.sessions[x].paneRefs[raw])
  {
    hide UpdatedIdentity, SupplyAfter;
    ListedAgain(st.sessions[x], st.next, t, k);
  }

  ghost function AfterAll(st: Store, events: seq<Event>): Store {
    if events == [] then st else Step(AfterAll(st, events[..|events| - 1]), events[|events| - 1])
  }

  datatype Resolution = Resolved(binding: PaneBinding) | StaleRef | Crashed

  /** A session is forgotten and not listed again. */
  function Forgotten(session: string, events: seq<Event>): bool {
    if events == [] then false
    else
      var before := Forgotten(session, events[..|events| - 1]);
      match events[|events| - 1]
      case Refresh(x, _, _) => x != session && before
      case Forget(x) => x == session || before
  }

  /** What a session was last listed as, having been listed as t before. */
  function LastListing(session: string, t: Topology, events: seq<Event>): Topology {
    if events == [] then t
    else
      match events[|events| - 1]
      case Refresh(x, _, last) => if x == session then last else LastListing(session, t, events[..|events| - 1])
      case Forget(_) => LastListing(session, t, events[..|events| - 1])
  }

  /** The identity covers exactly this listing. */
  ghost predicate Covers(i: Identity, t: Topology) {
    i.paneRefs.Keys == ListedPanes(t, |t.panes|) && EntriesOk(i, t, |t.panes|)
  }

  lemma RefreshCovers(st: Store, x: string, canonical: string, t: Topology)
    requires StoreOk(st)
    ensures var st' := Step(st, Refresh(x, canonical, t)); x in st'.sessions && Covers(st'.sessions[x], t)
  {
    BeforeOk(st, x, canonical);
    UpdateKeeps(Before(st, x, canonical), st.next, t);
  }

  lemma {:induction false} FollowsListing(st: Store, session: string, t: Topology, events: seq<Event>)
    requires StoreOk(st) && session in st.sessions && Covers(st.sessions[session], t)
    ensures var st' := AfterAll(st, events);
            && StoreOk(st') && (session in st'.sessions <==> !Forgotten(session, events))
            && (session in st'.sessions ==> Covers(st'.sessions[session], LastListing(session, t, events)))
  {
    hide StoreOk, Covers, UpdatedIdentity, SupplyAfter, Before;
    if events != [] {
      var front := events[..|events| - 1];
      FollowsListing(st, session, t, front);
      StepKeeps(AfterAll(st, front), events[|events| - 1]);
      match events[|events| - 1]
      case Refresh(x, canonical, last) => RefreshCovers(AfterAll(st, front), x, canonical, last);
      case Forget(_) =>
    }
  }

  class Identities {
    var sessions: map<string, Identity>
    var next: Ref

    ghost function Now(): Store
      reads this
    {
      Store(sessions, next)
    }

    constructor ()
      ensures Now() == Store(map[], 1) && StoreOk(Now())
    {
      sessions, next := map[], 1;
    }

    method RefreshSession(session: string, canonical: string, t: Topology) returns (r: Result<PublicTopology>)
      requires StoreOk(Now())
      modifies this
      ensures Now() == old(Step(Now(), Refresh(session, canonical, t))) && StoreOk(Now())
      ensures var i := old(Before(Now(), session, canonical));
              && IdentityOk(i, old(next))
              && r == (if Complete(View(i, old(next), t)) then Ok(View(i, old(next), t)) else Stale)
              && (r.Ok? <==> ActiveEntry(t).Some?)
    {
      StepKeeps(Now(), Refresh(session, canonical, t));
      BeforeOk(Now(), session, canonical);
      CompleteIf(Before(Now(), session, canonical), next, t);
      var identity := NewIdentity(canonical);
      if session in sessions && sessions[session].canonical == canonical {
        identity := sessions[session];
      }
      var updated, supply;
      updated, supply, r := Update(identity, next, t);
      sessions, next := sessions[session := updated], supply;
    }

    /** What other callers do between two locked sections of one. */
    method OthersAct(events: seq<Event>)
      requires StoreOk(Now())
      modifies this
      ensures Now() == AfterAll(old(Now()), events) && StoreOk(Now())
    {
      assert events[..|events|] == events;
      for k := 0 to |events|
        invariant StoreOk(Now()) && Now() == AfterAll(old(Now()), events[..k])
      {
        assert events[..k + 1][..k] == events[..k];
        match events[k]
        case Refresh(session, canonical, t) => var _ := RefreshSession(session, canonical, t);
        case Forget(session) => ForgetSession(session);
      }
    }

    /** Resolves a pane in two locked sections, with whatever `others` do in between; `verified`
        is tmux's own answer about the generation. A resolved pane was listed when the session
        was last listed, under the server of that time, and is active if that was asked for.
        The lookup dereferences nothing exactly when the session was forgotten meanwhile. */
    method ResolvePane(session: string, canonical: string, t: Topology, ref: Ref, active: bool, verified: bool, others: seq<Event>)
      returns (r: Resolution)
      requires StoreOk(Now())
      modifies this
      ensures StoreOk(Now()) && IdentityOk(old(Before(Now(), session, canonical)), old(next))
      ensures var listed := old(Step(Now(), Refresh(session, canonical, t)));
              var complete := Complete(View(old(Before(Now(), session, canonical)), old(next), t));
              && Now() == (if ref == NO_REF then old(Now()) else if !complete then listed else AfterAll(listed, others))
              && (r.Crashed? <==> ref != NO_REF && complete && Forgotten(session, others))
              && (r.Resolved? <==> && verified && ref != NO_REF && complete && !Forgotten(session, others)
                                   && session in sessions && ref in sessions[session].panes
                                   && (active ==> sessions[session].panes[ref].active))
      ensures r.Resolved? ==>
        var last := LastListing(session, t, others);
        && r.binding == sessions[session].panes[ref] && r.binding.ref == ref && (active ==> r.binding.active)
        && r.binding.rawId in ListedPanes(last, |last.panes|) && r.binding.generation == GenerationOf(last, r.binding.rawId)
    {
      BeforeOk(Now(), session, canonical);
      if ref == NO_REF {
        return StaleRef;
      }
      UpdateKeeps(Before(Now(), session, canonical), next, t);
      ghost var before := Now();
      var view := RefreshSession(session, canonical, t);
      if view.Stale? {
        return StaleRef;
      }
      ghost var listed := Now();
      OthersAct(others);
      FollowsListing(listed, session, t, others);
      if session !in sessions {
        return Crashed;
      }
      var identity := sessions[session];
      if ref !in identity.panes || (active && !identity.panes[ref].active) || !verified {
        return StaleRef;
      }
      BoundNow(identity, next, LastListing(session, t, others), ref);
      return Resolved(identity.panes[ref]);
    }

    method ForgetSession(session: string)
      requires StoreOk(Now())
      modifies this
      ensures Now() == old(Step(Now(), Forget(session))) && StoreOk(Now())
    {
      StepKeeps(Now(), Forget(session));
      sessions := sessions - {session};
    }
  }

  lemma BoundNow(i: Identity, next: Ref, t: Topology, ref: Ref)
    requires IdentityOk(i, next) && EntriesOk(i, t, |t.panes|) && i.paneRefs.Keys == ListedPanes(t, |t.panes|) && ref in i.panes
    ensures i.panes[ref].ref == ref && i.panes[ref].rawId in ListedPanes(t, |t.panes|)
    ensures i.panes[ref].generation == GenerationOf(t, i.panes[ref].rawId)
  {
    var raw := i.panes[ref].rawId;
    ListedPaneIds(t, |t.panes|);
    var k :| 0 <= k < |t.panes| && t.panes[k].id == raw;
    assert Current(i, t, t.panes[k].id);
  }
}
