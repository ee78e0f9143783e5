/** The store of history snapshots: quotas per viewer, user and process, byte and node
    accounting, idle expiry, and paging by the owner only. */
module SnapshotManager {
  import opened AnsiHistory
  import opened CaptureRate
  import opened Paging
  import opened Patterns

  datatype Config = Config(idleTtl: int, perViewer: int, perUser: int, perProcess: int,
                           maxBytes: int, maxNodes: int, page: PageLimits)

  datatype Meta = Meta(columns: int, rows: int, historySize: int, historyLimit: int, alternateScreen: bool,
                       outputEpoch: int, historyBytes: int)
  datatype Capture = Capture(before: Meta, after: Meta)
  datatype Binding = Binding(sessionRef: string, paneRef: string, generation: Generation, outputEpoch: int, historyBytes: int)

  datatype Request = Request(user: string, viewer: string, sessionRef: string, paneRef: string, generation: Generation,
                             mode: string, capture: Capture, lines: seq<Line>, nodeEstimate: int)

  datatype Snapshot = Snapshot(id: string, user: string, viewer: string, binding: Binding, mode: string, capture: Capture,
                               book: Book, memory: nat, nodes: nat, lastAccess: int)

  datatype Response = Response(snapshotId: string, mode: string, columns: int, rows: int, historySize: int, historyLimit: int,
                               alternateScreen: bool, outputEpoch: int, followedByOutput: bool, page: Page)

  datatype Error = NotFound | Gone | Capacity | TooLarge | BadCursor
  datatype Result<T> = Ok(value: T) | Failed(error: Error)

  type Store = map<string, Snapshot>

  // ----- Identifiers

  predicate WordChar(c: char) { 'A' <= c <= 'Z' || 'a' <= c <= 'z' || '0' <= c <= '9' || c == '_' || c == '-' }

  predicate ValidSnapshotId(id: string) {
    && |id| >= 3 && id[..3] == "hs_" && 16 <= |id| - 3 <= 96
    && forall i :: 3 <= i < |id| ==> WordChar(id[i])
  }

  predicate ValidViewer(viewer: string) {
    && 16 <= |viewer| <= 128 && WordChar(viewer[0]) && viewer[0] != '_' && viewer[0] != '-'
    && forall i :: 0 <= i < |viewer| ==> WordChar(viewer[i])
  }

  const WORD: Class := [('A', 'Z'), ('a', 'z'), ('0', '9'), ('_', '_'), ('-', '-')]

  lemma WordChars(c: char)
    ensures WordChar(c) <==> InClass(WORD, c)
    ensures WordChar(c) && c != '_' && c != '-' <==> InClass(WORD[..3], c)
  {
    var word := WORD;
    assert word[0] == ('A', 'Z') && word[1] == ('a', 'z') && word[2] == ('0', '9') && word[3] == ('_', '_') && word[4] == ('-', '-');
    assert forall i :: 0 <= i < 3 ==> word[..3][i] == word[i];
  }

  /** A snapshot ID is "hs_" and 16 to 96 letters, digits, underscores and hyphens. */
  lemma SnapshotIdPattern(id: string)
    ensures ValidSnapshotId(id) <==> Matches([Exactly("hs_"), Repeated(WORD, 16, 96)], id)
  {
    TwoPieces(Exactly("hs_"), Repeated(WORD, 16, 96), 3, id);
    if |id| >= 3 {
      var tail := id[3..];
      forall k | 0 <= k < |tail|
        ensures WordChar(id[k + 3]) <==> InClass(WORD, tail[k])
      {
        WordChars(tail[k]);
      }
      assert forall k :: 3 <= k < |id| ==> id[k] == tail[k - 3];
    }
  }

  /** A viewer is a letter or a digit and 15 to 127 more, or underscores and hyphens. */
  lemma ViewerPattern(viewer: string)
    ensures ValidViewer(viewer) <==> Matches([Repeated(WORD[..3], 1, 1), Repeated(WORD, 15, 127)], viewer)
  {
    TwoPieces(Repeated(WORD[..3], 1, 1), Repeated(WORD, 15, 127), 1, viewer);
    if |viewer| >= 1 {
      var head, tail := viewer[..1], viewer[1..];
      WordChars(viewer[0]);
      assert head[0] == viewer[0];
      assert AllIn(WORD[..3], head) <==> InClass(WORD[..3], viewer[0]);
      forall k | 0 <= k < |tail|
        ensures WordChar(viewer[k + 1]) <==> InClass(WORD, tail[k])
      {
        WordChars(tail[k]);
      }
      assert forall k :: 1 <= k < |viewer| ==> viewer[k] == tail[k - 1];
    }
  }

  // ----- Sizes

  function RunsMemory(runs: seq<Run>): nat {
    if runs == [] then 0 else RunsMemory(runs[..|runs| - 1]) + |runs[|runs| - 1].text| + RUN_OVERHEAD
  }

  function LinesMemory(enc: Encoder, lines: seq<Line>): nat {
    if lines == [] then 0
    else
      var last := lines[|lines| - 1];
      LinesMemory(enc, lines[..|lines| - 1]) + (enc(last) + LINE_OVERHEAD) + RunsMemory(last.runs)
  }

  function Nodes(lines: seq<Line>): nat { |lines| + TotalRuns(lines) }

  method NodeEstimate(lines: seq<Line>) returns (nodes: nat)
    ensures nodes == Nodes(lines)
  {
    nodes := |lines|;
    for i := 0 to |lines|
      invariant nodes == |lines| + TotalRuns(lines[..i])
    {
      assert lines[..i + 1][..i] == lines[..i];
      nodes := nodes + |lines[i].runs|;
    }
    assert lines[..|lines|] == lines;
  }

  /** Refuses a snapshot with a line that could not be paged out on its own. */
  method EstimateMemory(enc: Encoder, lines: seq<Line>, limits: PageLimits) returns (ok: bool, memory: nat)
    ensures ok == LinesFit(enc, limits, lines)
    ensures ok ==> memory == LinesMemory(enc, lines)
  {
    memory := 0;
    for i := 0 to |lines|
      invariant LinesFit(enc, limits, lines[..i]) && memory == LinesMemory(enc, lines[..i])
    {
      assert lines[..i + 1][..i] == lines[..i];
      var line := lines[i];
      if enc(line) + ENVELOPE > limits.maxBytes {
        return false, 0;
      }
      memory := memory + (enc(line) + LINE_OVERHEAD);
      for j := 0 to |line.runs|
        invariant memory == LinesMemory(enc, lines[..i]) + (enc(line) + LINE_OVERHEAD) + RunsMemory(line.runs[..j])
      {
        assert line.runs[..j + 1][..j] == line.runs[..j];
        memory := memory + |line.runs[j].text| + RUN_OVERHEAD;
      }
      assert line.runs[..|line.runs|] == line.runs;
    }
    assert lines[..|lines|] == lines;
    ok := true;
  }

  // ----- Sums and counts over the store

  ghost function TotalMemory(store: Store): nat {
    if store == map[] then 0
    else
      var id :| id in store;
      store[id].memory + TotalMemory(store - {id})
  }

  ghost function TotalNodes(store: Store): nat {
    if store == map[] then 0
    else
      var id :| id in store;
      store[id].nodes + TotalNodes(store - {id})
  }

  /** The sums do not depend on the order of summation. */
  lemma {:induction false} TotalsWithout(store: Store, id: string)
    requires id in store
    ensures TotalMemory(store) == store[id].memory + TotalMemory(store - {id})
    ensures TotalNodes(store) == store[id].nodes + TotalNodes(store - {id})
    decreases |store|
  {
    MemoryWithout(store, id);
    NodesWithout(store, id);
  }

  lemma {:induction false} MemoryWithout(store: Store, id: string)
    requires id in store
    ensures TotalMemory(store) == store[id].memory + TotalMemory(store - {id})
    decreases |store|
  {
    var first :| first in store && TotalMemory(store) == store[first].memory + TotalMemory(store - {first});
    if first != id {
      SmallerStore(store, first);
      SmallerStore(store, id);
      MemoryWithout(store - {first}, id);
      MemoryWithout(store - {id}, first);
      assert store - {first} - {id} == store - {id} - {first};
    }
  }

  lemma {:induction false} NodesWithout(store: Store, id: string)
    requires id in store
    ensures TotalNodes(store) == store[id].nodes + TotalNodes(store - {id})
    decreases |store|
  {
    var first :| first in store && TotalNodes(store) == store[first].nodes + TotalNodes(store - {first});
    if first != id {
      SmallerStore(store, first);
      SmallerStore(store, id);
      NodesWithout(store - {first}, id);
      NodesWithout(store - {id}, first);
      assert store - {first} - {id} == store - {id} - {first};
    }
  }

  lemma SmallerStore(store: Store, id: string)
    requires id in store
    ensures |store - {id}| == |store| - 1
  {
    assert (store - {id}).Keys == store.Keys - {id};
  }

  ghost function OfUser(store: Store, user: string): set<string> { set id | id in store && store[id].user == user }

  ghost function OfViewer(store: Store, user: string, viewer: string): set<string> {
    set id | id in store && store[id].user == user && store[id].viewer == viewer
  }

  // ----- The invariant

  predicate Configured(c: Config) {
    && c.idleTtl > 0 && c.perViewer > 0 && c.perUser > 0 && c.perProcess > 0 && c.maxBytes > 0 && c.maxNodes > 0
    && c.page.maxLines > 0 && c.page.maxBytes > 0
  }

  ghost predicate SnapshotOk(enc: Encoder, config: Config, id: string, s: Snapshot) {
    && s.id == id && LinesFit(enc, config.page, s.book.lines) && CursorsOk(s.book)
    && s.memory == LinesMemory(enc, s.book.lines) && s.nodes == Nodes(s.book.lines)
  }

  ghost predicate StoredOk(enc: Encoder, config: Config, store: Store) {
    forall id :: id in store ==> SnapshotOk(enc, config, id, store[id])
  }

  ghost predicate AccountsOk(config: Config, store: Store, memoryUsed: int, nodesUsed: int) {
    memoryUsed == TotalMemory(store) <= config.maxBytes && nodesUsed == TotalNodes(store) <= config.maxNodes
  }

  ghost predicate QuotasOk(config: Config, store: Store) {
    && |store| <= config.perProcess
    && (forall user :: |OfUser(store, user)| <= config.perUser)
    && (forall user, viewer :: |OfViewer(store, user, viewer)| <= config.perViewer)
  }

  ghost predicate Sound(enc: Encoder, config: Config, store: Store, memoryUsed: int, nodesUsed: int) {
    StoredOk(enc, config, store) && AccountsOk(config, store, memoryUsed, nodesUsed) && QuotasOk(config, store)
  }

  lemma FewerQuotas(config: Config, store: Store, less: Store)
    requires QuotasOk(config, store) && forall id :: id in less ==> id in store && SameOwner(less[id], store[id])
    ensures QuotasOk(config, less)
  {
    SubsetSize(less.Keys, store.Keys);
    forall user
      ensures |OfUser(less, user)| <= config.perUser
    {
      SubsetSize(OfUser(less, user), OfUser(store, user));
    }
    forall user, viewer
      ensures |OfViewer(less, user, viewer)| <= config.perViewer
    {
      SubsetSize(OfViewer(less, user, viewer), OfViewer(store, user, viewer));
    }
  }

  predicate SameOwner(a: Snapshot, b: Snapshot) { a.user == b.user && a.viewer == b.viewer }

  /** Touching a snapshot or adding cursors to it moves no quota. */
  lemma ReplaceKeeps(enc: Encoder, config: Config, store: Store, memoryUsed: int, nodesUsed: int, id: string, s: Snapshot)
    requires Sound(enc, config, store, memoryUsed, nodesUsed) && id in store && SnapshotOk(enc, config, id, s)
    requires SameOwner(s, store[id]) && s.memory == store[id].memory && s.nodes == store[id].nodes
    ensures Sound(enc, config, store[id := s], memoryUsed, nodesUsed)
  {
    TotalsReplaced(store, id, s);
    FewerQuotas(config, store, store[id := s]);
  }

  lemma TotalsReplaced(store: Store, id: string, s: Snapshot)
    requires id in store && s.memory == store[id].memory && s.nodes == store[id].nodes
    ensures TotalMemory(store[id := s]) == TotalMemory(store)
    ensures TotalNodes(store[id := s]) == TotalNodes(store)
  {
    TotalsWithout(store, id);
    TotalsAdded(store - {id}, id, s);
    assert (store - {id})[id := s] == store[id := s];
  }

  lemma MinusMore(store: Store, gone: set<string>, id: string)
    ensures store - gone - {id} == store - (gone + {id})
  {
  }

  lemma AddKeeps(enc: Encoder, config: Config, store: Store, memoryUsed: int, nodesUsed: int, id: string, s: Snapshot)
    requires Sound(enc, config, store, memoryUsed, nodesUsed) && id !in store && SnapshotOk(enc, config, id, s)
    requires |store| < config.perProcess && |OfUser(store, s.user)| < config.perUser
    requires |OfViewer(store, s.user, s.viewer)| < config.perViewer
    requires s.memory <= config.maxBytes - memoryUsed && s.nodes <= config.maxNodes - nodesUsed
    ensures Sound(enc, config, store[id := s], memoryUsed + s.memory, nodesUsed + s.nodes)
  {
    TotalsAdded(store, id, s);
    AddQuotas(config, store, id, s);
  }

  lemma TotalsAdded(store: Store, id: string, s: Snapshot)
    requires id !in store
    ensures TotalMemory(store[id := s]) == TotalMemory(store) + s.memory
    ensures TotalNodes(store[id := s]) == TotalNodes(store) + s.nodes
  {
    TotalsWithout(store[id := s], id);
    assert store[id := s] - {id} == store;
  }

  lemma AddQuotas(config: Config, store: Store, id: string, s: Snapshot)
    requires QuotasOk(config, store) && id !in store
    requires |store| < config.perProcess && |OfUser(store, s.user)| < config.perUser
    requires |OfViewer(store, s.user, s.viewer)| < config.perViewer
    ensures QuotasOk(config, store[id := s])
  {
    var store' := store[id := s];
    assert store'.Keys == store.Keys + {id};
    forall user
      ensures |OfUser(store', user)| <= config.perUser
    {
      AddedUser(store, id, s, user);
    }
    forall user, viewer
      ensures |OfViewer(store', user, viewer)| <= config.perViewer
    {
      AddedViewer(store, id, s, user, viewer);
    }
  }

  lemma AddedUser(store: Store, id: string, s: Snapshot, user: string)
    requires id !in store
    ensures |OfUser(store[id := s], user)| == |OfUser(store, user)| + (if user == s.user then 1 else 0)
  {
    if user == s.user {
      assert OfUser(store[id := s], user) == OfUser(store, user) + {id};
    } else {
      assert OfUser(store[id := s], user) == OfUser(store, user);
    }
  }

  lemma AddedViewer(store: Store, id: string, s: Snapshot, user: string, viewer: string)
    requires id !in store
    ensures |OfViewer(store[id := s], user, viewer)|
         == |OfViewer(store, user, viewer)| + (if user == s.user && viewer == s.viewer then 1 else 0)
  {
    if user == s.user && viewer == s.viewer {
      assert OfViewer(store[id := s], user, viewer) == OfViewer(store, user, viewer) + {id};
    } else {
      assert OfViewer(store[id := s], user, viewer) == OfViewer(store, user, viewer);
    }
  }

  // ----- The operations

  function NotIdle(store: Store, deadline: int): Store {
    map id | id in store && !(store[id].lastAccess < deadline) :: store[id]
  }

  predicate WellFormed(r: Request) { r.user != "" && ValidViewer(r.viewer) && r.sessionRef != "" && r.paneRef != "" }

  /** Over some cap if the request were added to the store. */
  ghost predicate Full(enc: Encoder, config: Config, store: Store, r: Request) {
    || |OfViewer(store, r.user, r.viewer)| >= config.perViewer
    || |OfUser(store, r.user)| >= config.perUser
    || |store| >= config.perProcess
    || TotalMemory(store) + LinesMemory(enc, r.lines) > config.maxBytes
    || TotalNodes(store) + Nodes(r.lines) > config.maxNodes
  }

  function NewSnapshot(enc: Encoder, r: Request, id: string, now: int): Snapshot {
    Snapshot(id, r.user, r.viewer,
             Binding(r.sessionRef, r.paneRef, r.generation, r.capture.after.outputEpoch, r.capture.after.historyBytes),
             r.mode, r.capture, Book(r.lines, map[], map[]), LinesMemory(enc, r.lines), Nodes(r.lines), now)
  }

  function Respond(s: Snapshot, page: Page): Response {
    var before, after := s.capture.before, s.capture.after;
    Response(s.id, s.mode, before.columns, before.rows, before.historySize, before.historyLimit, before.alternateScreen,
             after.outputEpoch, after.outputEpoch != before.outputEpoch || after.historyBytes != before.historyBytes, page)
  }

  /** A response describes the snapshot it is about: the screen as it was before the capture, the
      output as it was after it, and whether any came in between. */
  predicate Describes(r: Response, id: string, mode: string, capture: Capture) {
    && r.snapshotId == id && r.mode == mode
    && r.columns == capture.before.columns && r.rows == capture.before.rows && r.alternateScreen == capture.before.alternateScreen
    && r.historySize == capture.before.historySize && r.historyLimit == capture.before.historyLimit
    && r.outputEpoch == capture.after.outputEpoch
    && (!r.followedByOutput <==> capture.before.outputEpoch == capture.after.outputEpoch
                                 && capture.before.historyBytes == capture.after.historyBytes)
  }

  /** A snapshot holds what was asked to be stored, bound to what it was asked for. */
  predicate Holds(s: Snapshot, r: Request, id: string, now: int) {
    && s.id == id && s.user == r.user && s.viewer == r.viewer && s.lastAccess == now
    && s.binding.sessionRef == r.sessionRef && s.binding.paneRef == r.paneRef && s.binding.generation == r.generation
    && s.binding.outputEpoch == r.capture.after.outputEpoch && s.binding.historyBytes == r.capture.after.historyBytes
    && s.mode == r.mode && s.capture == r.capture && s.book.lines == r.lines
  }

  /** A part of a sound store is sound if its books are balanced. */
  lemma PartKeeps(enc: Encoder, config: Config, store: Store, memoryUsed: int, nodesUsed: int, part: Store, memory: int, nodes: int)
    requires Sound(enc, config, store, memoryUsed, nodesUsed) && AccountsOk(config, part, memory, nodes)
    requires forall id :: id in part ==> id in store && part[id] == store[id]
    ensures Sound(enc, config, part, memory, nodes)
  {
    FewerQuotas(config, store, part);
  }

  method Removed(ghost config: Config, store: Store, memoryUsed: int, nodesUsed: int, id: string)
    returns (store': Store, memory: int, nodes: int)
    requires AccountsOk(config, store, memoryUsed, nodesUsed)
    ensures AccountsOk(config, store', memory, nodes) && store' == store - {id}
  {
    if id in store {
      TotalsWithout(store, id);
      return store - {id}, memoryUsed - store[id].memory, nodesUsed - store[id].nodes;
    }
    return store, memoryUsed, nodesUsed;
  }

  method AllRemoved(ghost config: Config, store: Store, memoryUsed: int, nodesUsed: int, doomed: set<string>)
    returns (store': Store, memory: int, nodes: int)
    requires AccountsOk(config, store, memoryUsed, nodesUsed)
    ensures AccountsOk(config, store', memory, nodes) && store' == store - doomed
  {
    store', memory, nodes := store, memoryUsed, nodesUsed;
    var left := doomed;
    ghost var gone: set<string> := {};
    while left != {}
      invariant gone + left == doomed
      invariant AccountsOk(config, store', memory, nodes) && store' == store - gone
      decreases left
    {
      var id :| id in left;
      MinusMore(store, gone, id);
      store', memory, nodes := Removed(config, store', memory, nodes, id);
      left, gone := left - {id}, gone + {id};
    }
  }

  lemma LiveIds(enc: Encoder, config: Config, store: Store, memoryUsed: int, nodesUsed: int, deadline: int)
    requires Sound(enc, config, store, memoryUsed, nodesUsed)
    ensures forall id :: id in NotIdle(store, deadline) ==> NotIdle(store, deadline)[id].id == id
  {
    assert forall id :: id in NotIdle(store, deadline) ==> SnapshotOk(enc, config, id, store[id]);
  }

  lemma ShownDescribes(enc: Encoder, config: Config, store: Store, s: Snapshot, at: string, cursor: string,
                       after: Store, r: Result<Response>)
    requires CursorsOk(s.book) && ShownFrom(enc, config, store, s, at, cursor, after, r)
    ensures r.Ok? ==> Describes(r.value, s.id, s.mode, s.capture)
    ensures s.id in after && after[s.id] == s.(book := after[s.id].book) && after[s.id].book.lines == s.book.lines
    ensures after - {s.id} == store - {s.id}
  {
  }

  /** The only cursor a new snapshot may have after its first page is the one drawn. */
  lemma NewCursor(enc: Encoder, config: Config, store: Store, s: Snapshot, cursor: string, after: Store, r: Result<Response>)
    requires CursorsOk(s.book) && s.book.cursors == map[] && ShownFrom(enc, config, store, s, "", cursor, after, r)
    ensures s.id in after && forall c :: c in after[s.id].book.cursors ==> c == cursor
  {
  }

  lemma FirstPageShown(enc: Encoder, config: Config, store: Store, s: Snapshot, cursor: string, after: Store, r: Result<Response>)
    requires CursorsOk(s.book) && ShownFrom(enc, config, store, s, "", cursor, after, r)
    ensures r.Ok? && s.id in after && after[s.id].lastAccess == s.lastAccess
  {
  }

  predicate FreshCursor(store: Store, cursor: string) {
    cursor != "" && forall id :: id in store ==> cursor !in store[id].book.cursors
  }

  /** What looking up a well-formed id does to the store of live snapshots. */
  ghost predicate Authorized(live: Store, id: string, user: string, viewer: string, now: int, after: Store, r: Result<Snapshot>) {
    if id !in live then r == Failed(Gone) && after == live
    else if live[id].user != user || live[id].viewer != viewer then r == Failed(NotFound) && after == live
    else r == Ok(live[id].(lastAccess := now)) && after == live[id := r.value]
  }

  /** What showing a page answers and leaves behind; that nothing fits cannot happen. */
  ghost predicate ShownFrom(enc: Encoder, config: Config, store: Store, s: Snapshot, at: string, cursor: string,
                            after: Store, r: Result<Response>)
    requires CursorsOk(s.book)
  {
    var (book, page) := Turn(enc, config.page, s.book, at, cursor);
    && !page.NothingFits?
    && after == store[s.id := s.(book := book)]
    && r == if page.Shown? then Ok(Respond(s, page.page)) else Failed(BadCursor)
  }

  lemma TouchThenShow(enc: Encoder, config: Config, live: Store, s: Snapshot, now: int, at: string, cursor: string,
                      after: Store, r: Result<Response>)
    requires CursorsOk(s.book)
    requires ShownFrom(enc, config, live[s.id := s.(lastAccess := now)], s.(lastAccess := now), at, cursor, after, r)
    ensures ShownFrom(enc, config, live, s.(lastAccess := now), at, cursor, after, r)
  {
  }

  lemma AddThenShow(enc: Encoder, config: Config, live: Store, s: Snapshot, cursor: string, after: Store, r: Result<Response>)
    requires CursorsOk(s.book) && ShownFrom(enc, config, live[s.id := s], s, "", cursor, after, r)
    ensures r.Ok? && ShownFrom(enc, config, live, s, "", cursor, after, r)
  {
  }

  /** A request is refused for want of room exactly when storing it would break some cap. */
  lemma FullExactly(enc: Encoder, config: Config, store: Store, memoryUsed: int, nodesUsed: int, r: Request, id: string, now: int)
    requires Sound(enc, config, store, memoryUsed, nodesUsed) && id !in store
    ensures var more := store[id := NewSnapshot(enc, r, id, now)];
            Full(enc, config, store, r) <==>
              !(QuotasOk(config, more) && TotalMemory(more) <= config.maxBytes && TotalNodes(more) <= config.maxNodes)
  {
    hide TotalMemory, TotalNodes, StoredOk, LinesMemory, OfUser, OfViewer, QuotasOk, Nodes;
    var s := NewSnapshot(enc, r, id, now);
    TotalsAdded(store, id, s);
    RoomForOne(config, store, id, s);
  }

  lemma RoomForOne(config: Config, store: Store, id: string, s: Snapshot)
    requires QuotasOk(config, store) && id !in store
    ensures QuotasOk(config, store[id := s]) <==>
      |store| < config.perProcess && |OfUser(store, s.user)| < config.perUser && |OfViewer(store, s.user, s.viewer)| < config.perViewer
  {
    var more := store[id := s];
    assert more.Keys == store.Keys + {id};
    AddedUser(store, id, s, s.user);
    AddedViewer(store, id, s, s.user, s.viewer);
    if |store| < config.perProcess && |OfUser(store, s.user)| < config.perUser && |OfViewer(store, s.user, s.viewer)| < config.perViewer {
      AddQuotas(config, store, id, s);
    } else {
      assert QuotasOk(config, more) ==> |OfUser(more, s.user)| <= config.perUser;
      assert QuotasOk(config, more) ==> |OfViewer(more, s.user, s.viewer)| <= config.perViewer;
    }
  }

  /** The estimate is what the parser reckons the lines to take, and what they take when written out. */
  lemma {:induction false} MemoryIs(enc: Encoder, lines: seq<Line>)
    ensures LinesMemory(enc, lines) == StructuredBytes(lines) + Encoded(enc, lines, 0, |lines|) - |lines|
  {
    if lines != [] {
      var front := lines[..|lines| - 1];
      MemoryIs(enc, front);
      RunsMemoryIs(lines[|lines| - 1].runs);
      EncodedSnoc(enc, lines, 0);
      EncodedOf(enc, lines, 0, |lines| - 1);
    } else {
      assert Encoded(enc, lines, 0, 0) == 0;
    }
  }

  lemma {:induction false} RunsMemoryIs(runs: seq<Run>)
    ensures RunsMemory(runs) == TextBytes(runs) + RUN_OVERHEAD * |runs|
  {
    if runs != [] { RunsMemoryIs(runs[..|runs| - 1]); }
  }

  lemma {:induction false} EncodedSnoc(enc: Encoder, lines: seq<Line>, lo: nat)
    requires lo < |lines|
    ensures Encoded(enc, lines, lo, |lines|) == Encoded(enc, lines, lo, |lines| - 1) + enc(lines[|lines| - 1]) + 1
    decreases |lines| - lo
  {
    if lo < |lines| - 1 {
      EncodedSnoc(enc, lines, lo + 1);
    } else {
      assert Encoded(enc, lines, |lines|, |lines|) == 0 && Encoded(enc, lines, lo, lo) == 0;
    }
  }

  lemma {:induction false} EncodedOf(enc: Encoder, lines: seq<Line>, lo: nat, hi: nat)
    requires lo <= hi <= |lines|
    ensures Encoded(enc, lines[..hi], lo, hi) == Encoded(enc, lines, lo, hi)
    decreases hi - lo
  {
    if lo < hi { EncodedOf(enc, lines, lo + 1, hi); }
  }

  method CountOwned(store: Store, user: string, viewer: string) returns (userCount: nat, viewerCount: nat)
    ensures userCount == |OfUser(store, user)| && viewerCount == |OfViewer(store, user, viewer)|
  {
    userCount, viewerCount := 0, 0;
    var left := store.Keys;
    ghost var seen: Store := map[];
    while left != {}
      invariant left <= store.Keys
      invariant seen == map id | id in store && id !in left :: store[id]
      invariant userCount == |OfUser(seen, user)| && viewerCount == |OfViewer(seen, user, viewer)|
      decreases left
    {
      var id :| id in left;
      AddedUser(seen, id, store[id], user);
      AddedViewer(seen, id, store[id], user, viewer);
      if store[id].user == user {
        userCount := userCount + 1;
        if store[id].viewer == viewer {
          viewerCount := viewerCount + 1;
        }
      }
      left, seen := left - {id}, seen[id := store[id]];
    }
    assert seen == store;
  }

  /** The settings a manager runs with: every value that is not positive gets its default. */
  function WithDefaults(c: Config): (r: Config)
    ensures Configured(r)
    ensures Configured(c) ==> r == c
    ensures c.idleTtl > 0 ==> r.idleTtl == c.idleTtl
    ensures (c.perViewer > 0 ==> r.perViewer == c.perViewer) && (c.perUser > 0 ==> r.perUser == c.perUser)
    ensures (c.perProcess > 0 ==> r.perProcess == c.perProcess) && (c.maxBytes > 0 ==> r.maxBytes == c.maxBytes)
    ensures (c.maxNodes > 0 ==> r.maxNodes == c.maxNodes) && (c.page.maxLines > 0 ==> r.page.maxLines == c.page.maxLines)
    ensures c.page.maxBytes > 0 ==> r.page.maxBytes == c.page.maxBytes
  {
    Config(if c.idleTtl <= 0 then 600_000_000_000 else c.idleTtl,
           if c.perViewer <= 0 then 2 else c.perViewer,
           if c.perUser <= 0 then 8 else c.perUser,
           if c.perProcess <= 0 then 32 else c.perProcess,
           if c.maxBytes <= 0 then 134_217_728 else c.maxBytes,
           if c.maxNodes <= 0 then 1_000_000 else c.maxNodes,
           PageLimits(if c.page.maxLines <= 0 then 3000 else c.page.maxLines,
                      if c.page.maxBytes <= 0 then 2_097_152 else c.page.maxBytes))
  }

  class Manager {
    const config: Config
    const enc: Encoder
    var snapshots: Store
    var memoryUsed: int
    var nodesUsed: int

    ghost predicate Valid()
      reads this
    {
      Configured(config) && Sound(enc, config, snapshots, memoryUsed, nodesUsed)
    }

    constructor (config: Config, enc: Encoder)
      ensures Valid() && snapshots == map[] && this.config == WithDefaults(config) && this.enc == enc
    {
      this.config, this.enc, snapshots, memoryUsed, nodesUsed := WithDefaults(config), enc, map[], 0, 0;
      new;
      assert forall user :: OfUser(snapshots, user) == {};
      assert forall user, viewer :: OfViewer(snapshots, user, viewer) == {};
    }

    method DeleteLocked(id: string)
      requires Valid()
      modifies this
      ensures Valid() && snapshots == old(snapshots) - {id}
    {
      DeleteAll({id});
    }

    method DeleteAll(doomed: set<string>)
      requires Valid()
      modifies this
      ensures Valid() && snapshots == old(snapshots) - doomed
    {
      var part, memory, nodes := AllRemoved(config, snapshots, memoryUsed, nodesUsed, doomed);
      PartKeeps(enc, config, snapshots, memoryUsed, nodesUsed, part, memory, nodes);
      snapshots, memoryUsed, nodesUsed := part, memory, nodes;
    }

    method PruneLocked(now: int)
      requires Valid()
      modifies this
      ensures Valid() && snapshots == NotIdle(old(snapshots), now - config.idleTtl)
    {
      hide Sound;
      var deadline := now - config.idleTtl;
      DeleteAll(set id | id in snapshots && snapshots[id].lastAccess < deadline);
    }

    method DeleteUser(user: string)
      requires Valid()
      modifies this
      ensures Valid() && snapshots == map id | id in old(snapshots) && old(snapshots)[id].user != user :: old(snapshots)[id]
    {
      hide Sound;
      DeleteAll(set id | id in snapshots && snapshots[id].user == user);
    }

    method DeleteSession(ref: string)
      requires Valid()
      modifies this
      ensures Valid()
      ensures snapshots == map id | id in old(snapshots) && old(snapshots)[id].binding.sessionRef != ref :: old(snapshots)[id]
    {
      hide Sound;
      DeleteAll(set id | id in snapshots && snapshots[id].binding.sessionRef == ref);
    }

    /** Only the owner's own, still live snapshot is found, and finding it keeps it alive. */
    method AuthorizedLocked(id: string, user: string, viewer: string, now: int) returns (r: Result<Snapshot>)
      requires Valid()
      modifies this
      ensures Valid()
      ensures !ValidSnapshotId(id) ==> r == Failed(NotFound) && snapshots == old(snapshots)
      ensures ValidSnapshotId(id) ==> Authorized(NotIdle(old(snapshots), now - config.idleTtl), id, user, viewer, now, snapshots, r)
    {
      if !ValidSnapshotId(id) {
        return Failed(NotFound);
      }
      PruneLocked(now);
      if id !in snapshots {
        return Failed(Gone);
      }
      var snapshot := snapshots[id];
      if snapshot.user != user || snapshot.viewer != viewer {
        return Failed(NotFound);
      }
      snapshot := snapshot.(lastAccess := now);
      ReplaceKeeps(enc, config, snapshots, memoryUsed, nodesUsed, id, snapshot);
      snapshots := snapshots[id := snapshot];
      return Ok(snapshot);
    }

    /** One page, with `cursor` drawn if a new cursor is needed; the snapshot keeps it. */
    method ShowPage(snapshot: Snapshot, at: string, cursor: string) returns (r: Result<Response>)
      requires Valid() && snapshot.id in snapshots && snapshots[snapshot.id] == snapshot
      requires cursor != "" && cursor !in snapshot.book.cursors
      modifies this`snapshots
      ensures Valid()
      ensures CursorsOk(snapshot.book) && ShownFrom(enc, config, old(snapshots), snapshot, at, cursor, snapshots, r)
    {
      assert SnapshotOk(enc, config, snapshot.id, snapshot);
      TurnKeeps(enc, config.page, snapshot.book, at, cursor);
      var book, page := PageLocked(enc, config.page, snapshot.book, at, cursor);
      var paged := snapshot.(book := book);
      ReplaceKeeps(enc, config, snapshots, memoryUsed, nodesUsed, snapshot.id, paged);
      snapshots := snapshots[snapshot.id := paged];
      match page
      case Shown(p) => r := Ok(Respond(snapshot, p));
      case UnknownCursor => r := Failed(BadCursor);
    }

    method Page(id: string, at: string, user: string, viewer: string, now: int, cursor: string) returns (r: Result<Response>)
      requires Valid() && FreshCursor(snapshots, cursor)
      modifies this
      ensures Valid()
      ensures r.Failed? ==> r.error in {NotFound, Gone, BadCursor}
      ensures var live := NotIdle(old(snapshots), now - config.idleTtl);
        if !ValidSnapshotId(id) then r == Failed(NotFound) && snapshots == old(snapshots)
        else if id !in live then r == Failed(Gone) && snapshots == live
        else if live[id].user != user || live[id].viewer != viewer then r == Failed(NotFound) && snapshots == live
        else CursorsOk(live[id].book) && ShownFrom(enc, config, live, live[id].(lastAccess := now), at, cursor, snapshots, r)
      ensures r.Ok? ==> id in old(snapshots) && Describes(r.value, id, old(snapshots)[id].mode, old(snapshots)[id].capture)
    {
      ghost var live := NotIdle(snapshots, now - config.idleTtl);
      assert id in live ==> SnapshotOk(enc, config, id, live[id]);
      var found := AuthorizedLocked(id, user, viewer, now);
      if found.Failed? {
        return Failed(found.error);
      }
      r := ShowPage(found.value, at, cursor);
      TouchThenShow(enc, config, live, live[id], now, at, cursor, snapshots, r);
      ShownDescribes(enc, config, live, live[id].(lastAccess := now), at, cursor, snapshots, r);
    }

    method Delete(id: string, user: string, viewer: string, now: int) returns (r: Result<()>)
      requires Valid()
      modifies this
      ensures Valid()
      ensures var live := NotIdle(old(snapshots), now - config.idleTtl);
        if !ValidSnapshotId(id) then r == Failed(NotFound) && snapshots == old(snapshots)
        else if id !in live then r == Failed(Gone) && snapshots == live
        else if live[id].user != user || live[id].viewer != viewer then r == Failed(NotFound) && snapshots == live
        else r == Ok(()) && snapshots == live - {id}
    {
      hide NotIdle, StoredOk, AccountsOk, QuotasOk;
      ghost var live := NotIdle(snapshots, now - config.idleTtl);
      LiveIds(enc, config, snapshots, memoryUsed, nodesUsed, now - config.idleTtl);
      var found := AuthorizedLocked(id, user, viewer, now);
      if found.Failed? {
        return Failed(found.error);
      }
      DeleteLocked(found.value.id);
      assert snapshots == live - {id};
      return Ok(());
    }

    /** Stores the lines of a capture if every cap leaves room, and shows the last page.
        A refused request removes nothing but idle snapshots. */
    method Create(request: Request, now: int, id: string, cursor: string) returns (r: Result<Response>)
      requires Valid() && id !in snapshots && cursor != ""
      modifies this
      ensures Valid()
      ensures var live := NotIdle(old(snapshots), now - config.idleTtl);
        if request.user == "" || !ValidViewer(request.viewer) || request.sessionRef == "" || request.paneRef == "" then
          r == Failed(NotFound) && snapshots == old(snapshots)
        else if !LinesFit(enc, config.page, request.lines) || request.nodeEstimate !in {0, Nodes(request.lines)} then
          r == Failed(TooLarge) && snapshots == old(snapshots)
        else if Full(enc, config, live, request) then r == Failed(Capacity) && snapshots == live
        else r.Ok? && ShownFrom(enc, config, live, NewSnapshot(enc, request, id, now), "", cursor, snapshots, r)
      ensures r.Ok? ==>
        && id in snapshots && Holds(snapshots[id], request, id, now) && Describes(r.value, id, request.mode, request.capture)
        && snapshots - {id} == NotIdle(old(snapshots), now - config.idleTtl)
    {
      hide ShownFrom, Describes, StoredOk, TotalMemory, TotalNodes, LinesMemory;
      if !WellFormed(request) {
        return Failed(NotFound);
      }
      var ok, memory := EstimateMemory(enc, request.lines, config.page);
      if !ok {
        return Failed(TooLarge);
      }
      var actualNodes := NodeEstimate(request.lines);
      var nodes := request.nodeEstimate;
      if nodes == 0 {
        nodes := actualNodes;
      }
      if nodes < 0 || nodes != actualNodes {
        return Failed(TooLarge);
      }
      PruneLocked(now);
      var userCount, viewerCount := CountOwned(snapshots, request.user, request.viewer);
      if viewerCount >= config.perViewer || userCount >= config.perUser || |snapshots| >= config.perProcess
         || memory > config.maxBytes - memoryUsed || nodes > config.maxNodes - nodesUsed {
        return Failed(Capacity);
      }
      r := Insert(NewSnapshot(enc, request, id, now), cursor);
    }

    method Insert(snapshot: Snapshot, cursor: string) returns (r: Result<Response>)
      requires Valid() && snapshot.id !in snapshots && SnapshotOk(enc, config, snapshot.id, snapshot)
      requires cursor != "" && snapshot.book.cursors == map[]
      requires |snapshots| < config.perProcess && |OfUser(snapshots, snapshot.user)| < config.perUser
      requires |OfViewer(snapshots, snapshot.user, snapshot.viewer)| < config.perViewer
      requires snapshot.memory <= config.maxBytes - memoryUsed && snapshot.nodes <= config.maxNodes - nodesUsed
      modifies this
      ensures Valid() && r.Ok? && ShownFrom(enc, config, old(snapshots), snapshot, "", cursor, snapshots, r)
      ensures Describes(r.value, snapshot.id, snapshot.mode, snapshot.capture)
      ensures snapshot.id in snapshots && snapshots - {snapshot.id} == old(snapshots)
      ensures var s := snapshots[snapshot.id]; s == snapshot.(book := s.book) && s.book.lines == snapshot.book.lines
    {
      hide Describes, QuotasOk, AccountsOk, StoredOk;

      AddKeeps(enc, config, snapshots, memoryUsed, nodesUsed, snapshot.id, snapshot);
      snapshots := snapshots[snapshot.id := snapshot];
      memoryUsed := memoryUsed + snapshot.memory;
      nodesUsed := nodesUsed + snapshot.nodes;
      r := ShowPage(snapshot, "", cursor);
      AddThenShow(enc, config, old(snapshots), snapshot, cursor, snapshots, r);
      ShownDescribes(enc, config, old(snapshots), snapshot, "", cursor, snapshots, r);
      assert old(snapshots) - {snapshot.id} == old(snapshots);
    }
  }

  // ----- From one operation to the next

  /** History goes with its session: what was just stored is gone after its own session is deleted,
      and stays when another is. */
  method CreateThenDeleteSession(m: Manager, request: Request, now: int, id: string, cursor: string, ref: string)
    returns (r: Result<Response>)
    requires m.Valid() && id !in m.snapshots && cursor != ""
    modifies m
    ensures m.Valid() && (r.Ok? ==> (id in m.snapshots <==> ref != request.sessionRef))
    ensures r.Ok? && ref != request.sessionRef ==> Holds(m.snapshots[id], request, id, now)
  {
    r := m.Create(request, now, id, cursor);
    m.DeleteSession(ref);
  }

  /** What was stored can be paged by its owner, for as long as it is not idle for too long, and by
      nobody else; every page shown keeps it. */
  method CreateThenPage(m: Manager, request: Request, now: int, id: string, cursor: string, user: string, viewer: string,
                        later: int, cursor': string)
    returns (r: Result<Response>, again: Result<Response>)
    requires m.Valid() && id !in m.snapshots && cursor != "" && ValidSnapshotId(id) && now <= later
    requires cursor' != "" && cursor' != cursor && FreshCursor(m.snapshots, cursor')
    modifies m
    ensures m.Valid() && (r.Ok? ==>
      if later - now > m.config.idleTtl then again == Failed(Gone) && id !in m.snapshots
      else if user != request.user || viewer != request.viewer then again == Failed(NotFound)
      else again.Ok? && Describes(again.value, id, request.mode, request.capture) && id in m.snapshots
           && m.snapshots[id].lastAccess == later)
  {
    r := m.Create(request, now, id, cursor);
    if r.Failed? {
      return r, Failed(NotFound);
    }
    NewCursor(m.enc, m.config, NotIdle(old(m.snapshots), now - m.config.idleTtl), NewSnapshot(m.enc, request, id, now),
              cursor, m.snapshots, r);
    ghost var stored := m.snapshots;
    again := m.Page(id, "", user, viewer, later, cursor');
    if id in NotIdle(stored, later - m.config.idleTtl) && user == request.user && viewer == request.viewer {
      FirstPageShown(m.enc, m.config, NotIdle(stored, later - m.config.idleTtl), stored[id].(lastAccess := later), cursor', m.snapshots, again);
    }
  }
}
