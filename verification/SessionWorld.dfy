/** What managed sessions are made of outside the program: registry records, tmux sessions,
    bridge processes and files. What the holder of one session's lock may do to it, what
    everybody else may do meanwhile, and what follows for every interleaving. */
module SessionWorld {
  import opened Text
  import opened Registry
  import opened BridgeCommands

  datatype Config = Config(stateDir: string, home: string, ttyd: string, tmux: string, scrollback: nat)

  predicate Configured(c: Config) {
    IsAbsolute(c.stateDir) && NUL !in c.stateDir && IsAbsolute(c.tmux) && NUL !in c.tmux && NUL !in c.ttyd
  }

  datatype Stored = Garbage | Record(session: Session)
  datatype Artifact = SocketFile(id: string) | LogFile(id: string) | ResizeFile(name: string)

  /** `started` tells a process from a later one with the same PID; `exe` is the file it runs. */
  datatype Process = Process(started: nat, exe: nat, argv: Argv)
  datatype Listener = Listener(pid: int, started: nat)

  /** What was left of a session at the moment its record was removed: among the rest, the
      processes that still serve its socket, and what their command lines are to it. `blind`
      says that a bridge had been passed over. */
  datatype Removal = Removal(id: string, managed: Session, rollback: bool, blind: bool,
                             tmuxLeft: bool, filesLeft: set<Artifact>, serversLeft: map<int, Kind>)

  /** A tmux session that a lock holder has killed; `born` tells it from a later one of the name. */
  datatype Kill = Kill(id: string, born: nat)

  /** What can be seen of processes: the file that is now found as ttyd on the path, if any,
      whether /proc can be listed, and whose entries in it cannot be read. */
  datatype Sight = Sight(ttyd: Option<nat>, procListed: bool, hidden: set<int>)

  datatype World = World(records: map<string, Stored>, tmux: map<string, nat>, processes: map<int, Process>, sight: Sight,
                         listeners: map<string, Listener>, files: set<Artifact>, starts: nat, births: nat,
                         removals: seq<Removal>, kills: seq<Kill>)

  // ----- Reading the world

  predicate Good(c: Config, records: map<string, Stored>, id: string) {
    id in records && records[id].Record? && records[id].session.id == id && Compatible(c.stateDir, records[id].session)
  }

  /** What a process is to a session by its command line. */
  function KindIn(c: Config, m: Session, pid: int, p: Process): Kind {
    if pid > 1 then KindOf(Base(c.ttyd), c.tmux, m, pid, p.argv) else Unrelated
  }

  /** What each running process is to a session. */
  function Kinds(c: Config, m: Session, processes: map<int, Process>): map<int, Kind> {
    map pid | pid in processes :: KindIn(c, m, pid, processes[pid])
  }

  function Related(kinds: map<int, Kind>): set<int> { set pid | pid in kinds && kinds[pid] != Unrelated }

  /** The processes with the command line of a session's bridge. */
  function Bridges(c: Config, m: Session, processes: map<int, Process>): set<int> { Related(Kinds(c, m, processes)) }

  /** Whether a process can be recognised when it is looked at by itself. */
  predicate Verifiable(w: World, pid: int) {
    pid in w.processes && w.sight.ttyd == Some(w.processes[pid].exe) && pid !in w.sight.hidden
  }

  /** ... and in a search: without a listing only the registered process is looked at. */
  predicate Visible(w: World, m: Session, pid: int) { Verifiable(w, pid) && (w.sight.procListed || pid == m.pid) }

  /** The processes that a search for a session's bridges looks at. */
  function Seen(w: World, m: Session): map<int, Process> {
    w.processes - set pid | pid in w.processes && !Visible(w, m, pid)
  }

  function SeenBridges(c: Config, m: Session, w: World): set<int> { Bridges(c, m, Seen(w, m)) }

  /** A search now would miss a bridge of the session. */
  predicate Blind(c: Config, m: Session, w: World) { !(Bridges(c, m, w.processes) <= SeenBridges(c, m, w)) }

  lemma SeenAre(c: Config, m: Session, w: World)
    ensures forall pid :: pid in SeenBridges(c, m, w) <==> pid in Bridges(c, m, w.processes) && Visible(w, m, pid)
  {
  }

  predicate Serves(c: Config, id: string, p: Process) {
    p.argv != [] && HasOptionValue(p.argv[1..], "-i", ExpectedSocket(c.stateDir, id))
  }

  /** The processes that serve a session's socket. */
  function ServersOf(c: Config, id: string, processes: map<int, Process>): map<int, Process> {
    processes - set pid | pid in processes && !Serves(c, id, processes[pid])
  }

  /** Somebody answers on the session's socket. */
  predicate Ready(w: World, id: string) {
    && SocketFile(id) in w.files && id in w.listeners
    && var l := w.listeners[id]; l.pid in w.processes && w.processes[l.pid].started == l.started
  }

  function OwnFiles(id: string, ref: string): set<Artifact> { {SocketFile(id), LogFile(id), ResizeFile(id), ResizeFile(ref)} }

  /** They are the socket, the log and the stored sizes, those under the ID and under the reference. */
  lemma OwnFilesAre(a: Artifact, id: string, ref: string)
    ensures a in OwnFiles(id, ref) <==>
      match a
      case SocketFile(of) => of == id
      case LogFile(of) => of == id
      case ResizeFile(name) => name == id || name == ref
  {
  }

  function RefIn(records: map<string, Stored>, id: string): string {
    if id in records && records[id].Record? then records[id].session.publicRef else id
  }

  /** A canonical session, or one that has no public reference yet. */
  predicate Placed(c: Config, m: Session) {
    Canonical(c.stateDir, m) || (m.publicRef == "" && m.socket == ExpectedSocket(c.stateDir, m.id))
  }

  /** A process recognised as a bridge names the session's socket. */
  lemma BridgesServe(c: Config, m: Session, pid: int, p: Process)
    requires Configured(c) && Placed(c, m) && NulFree(p.argv) && KindIn(c, m, pid, p) != Unrelated
    ensures Serves(c, m.id, p)
  {
    if Classify(p.argv, Base(c.ttyd), c.tmux, m) == Unrelated {
      PreviousNamesSocket(p.argv, Base(c.ttyd), m, c.stateDir);
      assert p.argv[1..][1] == "-i" && p.argv[1..][2] == m.socket;
    }
  }

  // ----- Invariant and history

  /** None of the processes left has the command line of a bridge, unless one was passed over. */
  predicate NoneKnown(r: Removal) { r.blind || forall pid :: pid in r.serversLeft ==> r.serversLeft[pid] == Unrelated }

  predicate Justified(r: Removal) {
    !r.rollback ==> !r.tmuxLeft && r.filesLeft == {} && NoneKnown(r)
  }

  predicate ProcessesOk(processes: map<int, Process>, starts: nat) {
    forall pid :: pid in processes ==> NulFree(processes[pid].argv) && processes[pid].started < starts
  }

  predicate Sound(w: World) {
    && ProcessesOk(w.processes, w.starts) && (forall id :: id in w.tmux ==> w.tmux[id] < w.births)
    && forall i :: 0 <= i < |w.removals| ==> Justified(w.removals[i])
  }

  predicate Logged(before: seq<Removal>, after: seq<Removal>, id: string) {
    exists i :: |before| <= i < |after| && after[i].id == id
  }

  /** The logs and the counts only grow. */
  predicate Grows(w: World, w': World) {
    w.removals <= w'.removals && w.kills <= w'.kills && w.starts <= w'.starts && w.births <= w'.births
  }

  predicate GoodOrLogged(c: Config, w: World, w': World) {
    forall id :: id in w.records && Good(c, w.records, id) ==>
      Good(c, w'.records, id) || Logged(w.removals, w'.removals, id)
  }

  /** Whatever happens, a good record stays good until its removal is logged. */
  predicate Extends(c: Config, w: World, w': World) { Grows(w, w') && GoodOrLogged(c, w, w') }

  /** No removal of this session's record was logged in between. */
  predicate Untouched(id: string, before: seq<Removal>, after: seq<Removal>) {
    forall i :: |before| <= i < |after| ==> after[i].id != id
  }

  /** None was logged that took back a create. */
  predicate NoRollback(id: string, before: seq<Removal>, after: seq<Removal>) {
    forall i :: |before| <= i < |after| && after[i].id == id ==> !after[i].rollback
  }

  /** Nobody's tmux session of this name was killed in between. */
  predicate NoKill(id: string, before: seq<Kill>, after: seq<Kill>) {
    forall i :: |before| <= i < |after| ==> after[i].id != id
  }

  /** The tmux session of this name is the one that was there, or gone, and none but that one
      was killed. */
  predicate SameTmux(id: string, w: World, w': World) {
    && (id in w'.tmux ==> id in w.tmux && w'.tmux[id] == w.tmux[id])
    && forall i :: |w.kills| <= i < |w'.kills| && w'.kills[i].id == id ==> id in w.tmux && w'.kills[i].born == w.tmux[id]
  }

  lemma SameTmuxTransitive(id: string, a: World, b: World, d: World)
    requires SameTmux(id, a, b) && SameTmux(id, b, d) && a.kills <= b.kills <= d.kills
    ensures SameTmux(id, a, d)
  {
    assert forall i :: 0 <= i < |b.kills| ==> d.kills[i] == b.kills[i];
  }

  /** What an operation may do to a session whose lock it holds, short of ending it. */
  predicate Keeps(c: Config, id: string, w: World, w': World) {
    Extends(c, w, w') && NoRollback(id, w.removals, w'.removals) && NoKill(id, w.kills, w'.kills)
  }

  lemma KeepsTransitive(c: Config, id: string, a: World, b: World, d: World)
    requires Keeps(c, id, a, b) && Keeps(c, id, b, d)
    ensures Keeps(c, id, a, d)
  {
    ExtendsTransitive(c, a, b, d);
    NoRollbackTransitive(id, a, b, d);
    assert forall i :: 0 <= i < |b.kills| ==> d.kills[i] == b.kills[i];
  }

  /** ... and with the tmux session left as it is. */
  lemma KeepsSameTmux(c: Config, id: string, a: World, b: World, d: World)
    requires Keeps(c, id, a, b) && Keeps(c, id, b, d) && SameTmux(id, a, b) && SameTmux(id, b, d)
    ensures Keeps(c, id, a, d) && SameTmux(id, a, d) && a.removals <= b.removals && (id in b.tmux ==> id in a.tmux)
  {
    hide GoodOrLogged, NoRollback, NoKill;
    KeepsTransitive(c, id, a, b, d);
    SameTmuxTransitive(id, a, b, d);
  }

  lemma NoRollbackTransitive(id: string, a: World, b: World, d: World)
    requires NoRollback(id, a.removals, b.removals) && NoRollback(id, b.removals, d.removals)
    requires a.removals <= b.removals <= d.removals
    ensures NoRollback(id, a.removals, d.removals)
  {
    assert forall i :: 0 <= i < |b.removals| ==> d.removals[i] == b.removals[i];
  }

  lemma ExtendsReflexive(c: Config, w: World)
    ensures Extends(c, w, w)
  {
  }

  lemma ExtendsTransitive(c: Config, a: World, b: World, d: World)
    requires Extends(c, a, b) && Extends(c, b, d)
    ensures Extends(c, a, d)
  {
    forall id | id in a.records && Good(c, a.records, id)
      ensures Good(c, d.records, id) || Logged(a.removals, d.removals, id)
    {
      if !Good(c, b.records, id) {
        var i :| |a.removals| <= i < |b.removals| && b.removals[i].id == id;
        assert d.removals[i] == b.removals[i];
      } else if !Good(c, d.records, id) {
        var i :| |b.removals| <= i < |d.removals| && d.removals[i].id == id;
      }
    }
  }

  // ----- What others may do while a session's lock is held

  predicate SameRecord(a: map<string, Stored>, b: map<string, Stored>, id: string) {
    (id in a <==> id in b) && (id in a ==> a[id] == b[id])
  }

  predicate NoNewBridges(c: Config, id: string, before: map<int, Process>, after: map<int, Process>) {
    forall pid :: pid in after && Serves(c, id, after[pid]) ==> pid in before && before[pid] == after[pid]
  }

  predicate NoNewFiles(id: string, ref: string, before: set<Artifact>, after: set<Artifact>) {
    forall a :: a in OwnFiles(id, ref) && a in after ==> a in before
  }

  predicate NoNewListener(before: map<string, Listener>, after: map<string, Listener>, id: string) {
    id in after ==> id in before && after[id] == before[id]
  }

  /** The session's record stays, and everything else that belongs to it can only go away. */
  predicate OwnEbbs(c: Config, id: string, w: World, w': World) {
    && SameRecord(w.records, w'.records, id) && SameTmux(id, w, w')
    && NoNewBridges(c, id, w.processes, w'.processes) && NoNewListener(w.listeners, w'.listeners, id)
    && NoNewFiles(id, RefIn(w.records, id), w.files, w'.files) && Untouched(id, w.removals, w'.removals)
  }

  predicate Ebbs(c: Config, id: string, w: World, w': World) { Sound(w') && Extends(c, w, w') && OwnEbbs(c, id, w, w') }

  /** ... and no lock holder has killed its tmux session. */
  predicate OwnWanes(c: Config, id: string, w: World, w': World) {
    OwnEbbs(c, id, w, w') && NoKill(id, w.kills, w'.kills)
  }

  predicate Wanes(c: Config, id: string, w: World, w': World) { Sound(w') && Extends(c, w, w') && OwnWanes(c, id, w, w') }

  lemma EbbsTransitive(c: Config, id: string, a: World, b: World, d: World)
    requires Ebbs(c, id, a, b) && Ebbs(c, id, b, d)
    ensures Ebbs(c, id, a, d)
  {
    ExtendsTransitive(c, a, b, d);
    SameTmuxTransitive(id, a, b, d);
    assert forall i :: 0 <= i < |b.removals| ==> d.removals[i] == b.removals[i];
  }

  lemma WanesReflexive(c: Config, id: string, w: World)
    requires Sound(w)
    ensures Wanes(c, id, w, w)
  {
  }

  lemma WanesTransitive(c: Config, id: string, a: World, b: World, d: World)
    requires Wanes(c, id, a, b) && Wanes(c, id, b, d)
    ensures Wanes(c, id, a, d)
  {
    EbbsTransitive(c, id, a, b, d);
    assert forall i :: 0 <= i < |b.kills| ==> d.kills[i] == b.kills[i];
  }

  /** Under such changes the bridges of a session only disappear. */
  lemma BridgesWane(c: Config, m: Session, before: map<int, Process>, after: map<int, Process>, starts: nat)
    requires Configured(c) && Placed(c, m) && ProcessesOk(after, starts) && NoNewBridges(c, m.id, before, after)
    ensures forall pid :: pid in Bridges(c, m, after) ==> pid in Bridges(c, m, before) && after[pid] == before[pid]
  {
    forall pid | pid in Bridges(c, m, after)
      ensures pid in Bridges(c, m, before) && after[pid] == before[pid]
    {
      BridgesServe(c, m, pid, after[pid]);
    }
  }

  // ----- What a lock holder does

  /** What a tmux session is told, besides what it runs. */
  datatype Setting = History | WindowSize | AgentSocket

  datatype Effect =
    | BeginTmux
    | Configure(setting: Setting)
    | EndTmux
    | BeginProcess(pid: int, managed: Session, argv: Argv)
    | EndProcess(pid: int)
    | Listen(pid: int)
    | CreateLog
    | DeleteFile(file: Artifact)
    | WriteRecord(session: Session)
    | RemoveRecord(rollback: bool, blind: bool)

  function RemovalOf(c: Config, id: string, w: World, rollback: bool, blind: bool): Removal
    requires id in w.records && w.records[id].Record?
  {
    var m := w.records[id].session;
    Removal(id, m, rollback, blind, id in w.tmux, w.files * OwnFiles(id, m.publicRef),
            Kinds(c, m, ServersOf(c, id, w.processes)))
  }

  predicate Allowed(c: Config, id: string, w: World, e: Effect) {
    match e
    case BeginProcess(pid, m, argv) =>
      pid > 1 && pid !in w.processes && w.sight.ttyd.Some? && m.id == id && NulFree(argv) && IsLaunched(c, m, argv)
    case EndProcess(pid) => pid in w.processes && Serves(c, id, w.processes[pid])
    case Listen(pid) => pid in w.processes
    case DeleteFile(file) => file.ResizeFile? || file.id == id
    case WriteRecord(s) => s.id == id && Canonical(c.stateDir, s)
    case RemoveRecord(rollback, blind) =>
      id in w.records && w.records[id].Record? ==> Justified(RemovalOf(c, id, w, rollback, blind))
    case _ => true
  }

  predicate IsLaunched(c: Config, m: Session, argv: Argv) {
    Launched(c.stateDir, m, c.tmux, c.ttyd, Itoa(c.scrollback), argv)
  }

  function Apply(c: Config, id: string, w: World, e: Effect): World
    requires Allowed(c, id, w, e)
  {
    match e
    case BeginTmux => if id in w.tmux then w else w.(tmux := w.tmux[id := w.births], births := w.births + 1)
    case EndTmux => w.(tmux := w.tmux - {id}, kills := w.kills + if id in w.tmux then [Kill(id, w.tmux[id])] else [])
    case BeginProcess(pid, m, argv) =>
      w.(processes := w.processes[pid := Process(w.starts, w.sight.ttyd.value, argv)], starts := w.starts + 1)
    case Configure(_) => w
    case EndProcess(pid) => w.(processes := w.processes - {pid})
    case Listen(pid) => w.(listeners := w.listeners[id := Listener(pid, w.processes[pid].started)], files := w.files + {SocketFile(id)})
    case CreateLog => w.(files := w.files + {LogFile(id)})
    case DeleteFile(file) =>
      w.(files := w.files - {file}, listeners := if file == SocketFile(id) then w.listeners - {id} else w.listeners)
    case WriteRecord(s) => w.(records := w.records[id := Record(s)])
    case RemoveRecord(rollback, blind) => WithoutRecord(c, id, w, rollback, blind)
  }

  function WithoutRecord(c: Config, id: string, w: World, rollback: bool, blind: bool): World {
    w.(records := w.records - {id},
       removals := w.removals + if id in w.records && w.records[id].Record? then [RemovalOf(c, id, w, rollback, blind)] else [])
  }

  /** Where no process has the command line of a bridge, those that serve the socket have not. */
  lemma ServersUnrelated(c: Config, id: string, m: Session, processes: map<int, Process>)
    requires Bridges(c, m, processes) == {}
    ensures var left := Kinds(c, m, ServersOf(c, id, processes)); forall pid :: pid in left ==> left[pid] == Unrelated
  {
    hide KindIn, Serves;
    forall pid | pid in ServersOf(c, id, processes)
      ensures KindIn(c, m, pid, processes[pid]) == Unrelated
    {
      assert pid !in Bridges(c, m, processes);
    }
  }

  predicate Destroys(e: Effect) { e.EndProcess? || e.DeleteFile? }

  lemma CanonicalIsGood(c: Config, records: map<string, Stored>, s: Session)
    requires Canonical(c.stateDir, s)
    ensures Good(c, records[s.id := Record(s)], s.id)
  {
    assert TrimSpace(s.name) != "" by {
      assert s.name[0] in s.name && !IsSpace(s.name[0]);
    }
  }

  lemma RemovalKeeps(c: Config, id: string, w: World, rollback: bool, blind: bool)
    requires Sound(w) && Allowed(c, id, w, RemoveRecord(rollback, blind))
    ensures var w' := Apply(c, id, w, RemoveRecord(rollback, blind)); Sound(w') && Extends(c, w, w')
  {
    var w' := Apply(c, id, w, RemoveRecord(rollback, blind));
    if id in w.records && w.records[id].Record? {
      assert w'.removals == w.removals + [RemovalOf(c, id, w, rollback, blind)];
      assert Good(c, w.records, id) ==> w'.removals[|w.removals|].id == id;
    }
    assert forall k :: k in w.records && k != id ==> k in w'.records && w'.records[k] == w.records[k];
  }

  lemma WriteKeeps(c: Config, w: World, s: Session)
    requires Sound(w) && Canonical(c.stateDir, s)
    ensures var w' := w.(records := w.records[s.id := Record(s)]); Sound(w') && Extends(c, w, w')
  {
    CanonicalIsGood(c, w.records, s);
    var records := w.records[s.id := Record(s)];
    assert forall k :: k in w.records && k != s.id ==> records[k] == w.records[k];
  }

  lemma RecordsUntouched(c: Config, w: World, w': World)
    requires w'.records == w.records && w'.removals == w.removals && w.starts <= w'.starts
    requires w.kills <= w'.kills && w.births <= w'.births
    ensures Extends(c, w, w') && forall id :: Untouched(id, w.removals, w'.removals)
  {
  }

  lemma EffectKeeps(c: Config, id: string, w: World, e: Effect)
    requires Sound(w) && Allowed(c, id, w, e)
    ensures Sound(Apply(c, id, w, e)) && Extends(c, w, Apply(c, id, w, e))
  {
    match e
    case WriteRecord(s) => WriteKeeps(c, w, s);
    case RemoveRecord(rollback, blind) => RemovalKeeps(c, id, w, rollback, blind);
    case _ => RecordsUntouched(c, w, Apply(c, id, w, e));
  }

  /** A bridge started for one session serves no other's socket. */
  lemma LaunchSpares(c: Config, id: string, m: Session, argv: Argv, other: string, p: Process)
    requires Configured(c) && m.id == id && IsLaunched(c, m, argv) && other != id && p.argv == argv
    ensures !Serves(c, other, p)
  {
    SocketsDiffer(c.stateDir, id, other);
    NotOurSocket(m, c.tmux, c.ttyd, Itoa(c.scrollback), argv, ExpectedSocket(c.stateDir, other));
  }

  /** An effect that leaves records, tmux sessions and their logs alone. */
  lemma MatterSpares(c: Config, id: string, w: World, e: Effect, other: string)
    requires Configured(c) && Sound(w) && Allowed(c, id, w, e) && other != id
    requires e.BeginProcess? || e.EndProcess? || e.Listen? || e.CreateLog? || e.DeleteFile? || e.Configure?
    ensures OwnWanes(c, other, w, Apply(c, id, w, e))
  {
    hide KindIn, Canonical, Serves, GoodOrLogged, Sound, IsLaunched, Good, WithoutRecord;
    if e.BeginProcess? {
      LaunchSpares(c, id, e.managed, e.argv, other, Apply(c, id, w, e).processes[e.pid]);
    }
  }

  lemma RecordSpares(c: Config, id: string, w: World, e: Effect, other: string)
    requires Allowed(c, id, w, e) && other != id
    requires e.BeginTmux? || e.EndTmux? || e.WriteRecord? || e.RemoveRecord?
    ensures OwnWanes(c, other, w, Apply(c, id, w, e))
  {
    hide KindIn, Canonical, Serves, GoodOrLogged, Sound, IsLaunched, Good;
  }

  /** What the holder of one session's lock does is harmless to every other session. */
  lemma EffectSpares(c: Config, id: string, w: World, e: Effect, other: string)
    requires Configured(c) && Sound(w) && Allowed(c, id, w, e) && other != id
    ensures Wanes(c, other, w, Apply(c, id, w, e))
  {
    hide Apply, OwnWanes, Extends, Sound, Allowed;
    EffectKeeps(c, id, w, e);
    if e.BeginTmux? || e.EndTmux? || e.WriteRecord? || e.RemoveRecord? {
      RecordSpares(c, id, w, e, other);
    } else {
      MatterSpares(c, id, w, e, other);
    }
  }

  /** What only takes away is as harmless to the session itself. */
  lemma DestructionWanes(c: Config, id: string, w: World, e: Effect)
    requires Sound(w) && Allowed(c, id, w, e) && Destroys(e)
    ensures Wanes(c, id, w, Apply(c, id, w, e))
  {
    EffectKeeps(c, id, w, e);
  }

  /** Killing the tmux session of the name. */
  lemma EndTmuxEbbs(c: Config, id: string, w: World)
    requires Sound(w)
    ensures Ebbs(c, id, w, Apply(c, id, w, EndTmux))
  {
    EffectKeeps(c, id, w, EndTmux);
  }

  // ----- Every interleaving

  /** What a lock holder has found out and done so far. Nothing here is looked up again. */
  datatype Stage = Stage(making: bool, scanned: bool, left: set<int>, blind: bool, dead: bool, deleted: set<Artifact>)

  const AT_LOCK := Stage(false, false, {}, false, false, {})

  datatype Moment = Moment(world: World, held: map<string, Stage>)

  datatype Turn =
    | Acquire(id: string)
    | Release(id: string)
    | Act(id: string, effect: Effect)
    | Scan(id: string)              // lists the bridges it sees
    | Pass(id: string, pid: int)    // a listed process is not, or cannot be, recognised any more
    | SeeDead(id: string)           // finds the tmux session gone
    | SeeNoRecord(id: string)       // finds no good record, and goes on to make the session
    | Remove(id: string)            // removes the record
    | Outside

  function Actor(turn: Turn): Option<string> { if turn.Outside? then None else Some(turn.id) }

  /** A canonical record was read. */
  predicate Readable(c: Config, records: map<string, Stored>, id: string) {
    id in records && records[id].Record? && records[id].session.id == id && Canonical(c.stateDir, records[id].session)
  }

  function StageAfter(id: string, stage: Stage, e: Effect): Stage {
    match e
    case BeginTmux => stage.(dead := false)
    case EndTmux => stage.(dead := true)
    case BeginProcess(_, _, _) => stage.(scanned := false)
    case Listen(_) => stage.(deleted := stage.deleted - {SocketFile(id)})
    case CreateLog => stage.(deleted := stage.deleted - {LogFile(id)})
    case DeleteFile(file) => stage.(deleted := stage.deleted + {file})
    case WriteRecord(_) => stage.(scanned := false, deleted := {})
    case _ => stage
  }

  /** Every step of ending the session was gone through. */
  predicate Finished(id: string, ref: string, stage: Stage) {
    stage.scanned && stage.left == {} && stage.dead && OwnFiles(id, ref) <= stage.deleted
  }

  /** The steps that follow from what the holder has seen; none of them but the first looks at
      anything when the record is removed. */
  ghost predicate Steps(c: Config, w: World, stage: Stage, turn: Turn, stage': Stage) {
    match turn
    case Scan(id) =>
      && Readable(c, w.records, id)
      && var m := w.records[id].session; stage' == stage.(scanned := true, left := SeenBridges(c, m, w), blind := Blind(c, m, w))
    case Pass(id, pid) =>
      && stage.scanned && Readable(c, w.records, id)
      && var still := pid in Bridges(c, w.records[id].session, w.processes);
      && (still ==> !Verifiable(w, pid))
      && stage' == stage.(left := stage.left - {pid}, blind := stage.blind || still)
    case SeeDead(id) => id !in w.tmux && stage' == stage.(dead := true)
    case SeeNoRecord(id) => !Good(c, w.records, id) && stage' == stage.(making := true)
    case _ => false
  }

  /** One turn of one lock holder, or of the world outside, which leaves every session whose
      lock is held alone, and all records. */
  ghost predicate Moves(c: Config, a: Moment, turn: Turn, b: Moment) {
    match turn
    case Acquire(id) => id !in a.held && b == a.(held := a.held[id := AT_LOCK])
    case Release(id) => id in a.held && b == a.(held := a.held - {id})
    case Act(id, e) =>
      && id in a.held && !e.RemoveRecord? && Allowed(c, id, a.world, e)
      && b == Moment(Apply(c, id, a.world, e), a.held[id := StageAfter(id, a.held[id], e)])
    case Remove(id) =>
      && id in a.held && (a.held[id].making || Finished(id, RefIn(a.world.records, id), a.held[id]))
      && b == Moment(WithoutRecord(c, id, a.world, a.held[id].making, a.held[id].blind), a.held[id := a.held[id].(scanned := false)])
    case Outside =>
      && b.held == a.held && Sound(b.world) && a.world.starts <= b.world.starts
      && b.world.records == a.world.records && b.world.removals == a.world.removals
      && b.world.kills == a.world.kills && a.world.births <= b.world.births
      && forall id :: id in a.held ==> OwnWanes(c, id, a.world, b.world)
    case _ => turn.id in a.held && turn.id in b.held && b == a.(held := a.held[turn.id := b.held[turn.id]])
              && Steps(c, a.world, a.held[turn.id], turn, b.held[turn.id])
  }

  ghost predicate IsRun(c: Config, moments: seq<Moment>, turns: seq<Turn>) {
    && |moments| == |turns| + 1 && Configured(c) && Sound(moments[0].world) && moments[0].held == map[]
    && forall i :: 0 <= i < |turns| ==> Moves(c, moments[i], turns[i], moments[i + 1])
  }

  /** What a holder has found out still holds, whatever others did since. */
  ghost predicate StageOk(c: Config, w: World, id: string, stage: Stage) {
    && (stage.scanned ==> Readable(c, w.records, id) && (stage.blind || Bridges(c, w.records[id].session, w.processes) <= stage.left))
    && (stage.dead ==> id !in w.tmux)
    && forall f :: f in stage.deleted && f in OwnFiles(id, RefIn(w.records, id)) ==> f !in w.files
  }

  ghost predicate MomentOk(c: Config, a: Moment) {
    Sound(a.world) && forall id :: id in a.held ==> StageOk(c, a.world, id, a.held[id])
  }

  lemma StageStays(c: Config, w: World, id: string, stage: Stage, w': World)
    requires Configured(c) && StageOk(c, w, id, stage) && Sound(w') && OwnEbbs(c, id, w, w')
    ensures StageOk(c, w', id, stage)
  {
    if stage.scanned {
      BridgesWane(c, w.records[id].session, w.processes, w'.processes, w'.starts);
    }
  }

  /** A holder that has gone through all the steps may remove the record. */
  lemma FinishedIsJustified(c: Config, w: World, id: string, stage: Stage)
    requires StageOk(c, w, id, stage) && (stage.making || Finished(id, RefIn(w.records, id), stage))
    ensures Allowed(c, id, w, RemoveRecord(stage.making, stage.blind))
  {
    hide KindIn, Serves, Canonical;
    if !stage.making {
      assert w.files * OwnFiles(id, RefIn(w.records, id)) == {};
      if !stage.blind { ServersUnrelated(c, id, w.records[id].session, w.processes); }
    }
  }

  lemma ActKeepsStage(c: Config, w: World, id: string, stage: Stage, e: Effect)
    requires Configured(c) && Sound(w) && StageOk(c, w, id, stage) && Allowed(c, id, w, e) && !e.RemoveRecord?
    ensures StageOk(c, Apply(c, id, w, e), id, StageAfter(id, stage, e))
  {
    EffectKeeps(c, id, w, e);
    if Destroys(e) {
      DestructionWanes(c, id, w, e);
      StageStays(c, w, id, stage, Apply(c, id, w, e));
    }
  }

  lemma StepKeepsStage(c: Config, w: World, stage: Stage, turn: Turn, stage': Stage)
    requires !turn.Outside? && StageOk(c, w, turn.id, stage) && Steps(c, w, stage, turn, stage')
    ensures StageOk(c, w, turn.id, stage')
  {
  }

  lemma ActKeepsMoment(c: Config, a: Moment, id: string, e: Effect, b: Moment, stage: Stage)
    requires Configured(c) && MomentOk(c, a) && id in a.held && Allowed(c, id, a.world, e)
    requires b == Moment(Apply(c, id, a.world, e), a.held[id := stage]) && StageOk(c, b.world, id, stage)
    ensures MomentOk(c, b) && Extends(c, a.world, b.world)
  {
    hide StageOk, Apply, Allowed, Sound, Extends;
    EffectKeeps(c, id, a.world, e);
    forall other | other in b.held
      ensures StageOk(c, b.world, other, b.held[other])
    {
      if other != id {
        EffectSpares(c, id, a.world, e, other);
        StageStays(c, a.world, other, a.held[other], b.world);
      }
    }
  }

  lemma MovesKeep(c: Config, a: Moment, turn: Turn, b: Moment)
    requires Configured(c) && MomentOk(c, a) && Moves(c, a, turn, b)
    ensures MomentOk(c, b) && Extends(c, a.world, b.world)
  {
    hide StageOk, Apply, Allowed, Steps, Finished;
    match turn
    case Act(id, e) =>
      ActKeepsStage(c, a.world, id, a.held[id], e);
      ActKeepsMoment(c, a, id, e, b, StageAfter(id, a.held[id], e));
    case Remove(id) =>
      FinishedIsJustified(c, a.world, id, a.held[id]);
      RemovedStage(c, a.world, id, a.held[id]);
      ActKeepsMoment(c, a, id, RemoveRecord(a.held[id].making, a.held[id].blind), b, b.held[id]);
    case Outside =>
      RecordsUntouched(c, a.world, b.world);
      forall id | id in b.held
        ensures StageOk(c, b.world, id, b.held[id])
      {
        StageStays(c, a.world, id, a.held[id], b.world);
      }
    case Acquire(id) =>
      FreshStage(c, a.world, id);
      ExtendsReflexive(c, a.world);
    case Release(id) => ExtendsReflexive(c, a.world);
    case _ =>
      StepKeepsStage(c, a.world, a.held[turn.id], turn, b.held[turn.id]);
      ExtendsReflexive(c, a.world);
  }

  lemma FreshStage(c: Config, w: World, id: string)
    ensures StageOk(c, w, id, AT_LOCK)
  {
  }

  lemma RemovedStage(c: Config, w: World, id: string, stage: Stage)
    requires StageOk(c, w, id, stage) && Allowed(c, id, w, RemoveRecord(stage.making, stage.blind))
    ensures Apply(c, id, w, RemoveRecord(stage.making, stage.blind)) == WithoutRecord(c, id, w, stage.making, stage.blind)
    ensures StageOk(c, WithoutRecord(c, id, w, stage.making, stage.blind), id, stage.(scanned := false))
  {
  }

  lemma {:induction false} RunKeeps(c: Config, moments: seq<Moment>, turns: seq<Turn>, n: nat)
    requires IsRun(c, moments, turns) && n < |moments|
    ensures MomentOk(c, moments[n])
  {
    hide Moves, Extends, StageOk;
    if n > 0 {
      RunKeeps(c, moments, turns, n - 1);
      MovesKeep(c, moments[n - 1], turns[n - 1], moments[n]);
    }
  }

  /** The record is good and not one that is just being made; or it was removed, not as a
      rollback, when its tmux session and its files were gone and, unless a bridge was passed
      over, no process that served its socket had the command line of a bridge. */
  ghost predicate Accounted(c: Config, id: string, before: nat, a: Moment) {
    || (Good(c, a.world.records, id) && (id in a.held ==> !a.held[id].making))
    || exists k :: before <= k < |a.world.removals| && Ends(id, a.world.removals[k])
  }

  predicate Ends(id: string, r: Removal) {
    r.id == id && !r.rollback && !r.tmuxLeft && r.filesLeft == {} && NoneKnown(r)
  }

  lemma EndedStays(c: Config, id: string, before: nat, a: Moment, b: Moment)
    requires Extends(c, a.world, b.world)
    requires exists k :: before <= k < |a.world.removals| && Ends(id, a.world.removals[k])
    ensures Accounted(c, id, before, b)
  {
    var k :| before <= k < |a.world.removals| && Ends(id, a.world.removals[k]);
    assert b.world.removals[k] == a.world.removals[k];
  }

  lemma RemovalEnds(c: Config, w: World, id: string, stage: Stage)
    requires StageOk(c, w, id, stage) && !stage.making && Finished(id, RefIn(w.records, id), stage)
    ensures var w' := WithoutRecord(c, id, w, false, stage.blind);
            |w'.removals| == |w.removals| + 1 && Ends(id, w'.removals[|w.removals|])
  {
    hide KindIn, Serves, Canonical, Kinds, Bridges, NoneKnown;
    FinishedIsJustified(c, w, id, stage);
  }

  lemma MovesAccount(c: Config, a: Moment, turn: Turn, b: Moment, id: string, before: nat)
    requires Configured(c) && MomentOk(c, a) && Moves(c, a, turn, b)
    requires before <= |a.world.removals| && Accounted(c, id, before, a)
    ensures before <= |b.world.removals| && Accounted(c, id, before, b)
  {
    hide StageOk, Ends, Allowed;
    MovesKeep(c, a, turn, b);
    if exists k :: before <= k < |a.world.removals| && Ends(id, a.world.removals[k]) {
      EndedStays(c, id, before, a, b);
    } else if turn == Remove(id) {
      RemovalEnds(c, a.world, id, a.held[id]);
    } else {
      GoodStays(c, a, turn, b, id);
    }
  }

  lemma GoodStays(c: Config, a: Moment, turn: Turn, b: Moment, id: string)
    requires Moves(c, a, turn, b) && turn != Remove(id)
    requires Good(c, a.world.records, id) && (id in a.held ==> !a.held[id].making)
    ensures Good(c, b.world.records, id) && (id in b.held ==> !b.held[id].making)
  {
    hide Sound, OwnWanes, Compatible, Canonical, Finished;
    if turn.Act? && turn.effect.WriteRecord? {
      CanonicalIsGood(c, a.world.records, turn.effect.session);
    }
  }

  /** In every interleaving, a good record that nobody was just making and that is gone later
      was removed by somebody who had gone through all the steps of ending the session: at that
      moment its tmux session was gone, its files were gone and, unless a bridge had been passed
      over, whatever still served its socket had not the command line of a bridge. No rollback
      of a create ever takes it. */
  lemma {:induction false} RecordGoesLast(c: Config, moments: seq<Moment>, turns: seq<Turn>, i: nat, j: nat, id: string)
    requires IsRun(c, moments, turns) && i <= j < |moments|
    requires Good(c, moments[i].world.records, id) && (id in moments[i].held ==> !moments[i].held[id].making)
    requires !Good(c, moments[j].world.records, id)
    ensures exists k :: |moments[i].world.removals| <= k < |moments[j].world.removals| && Ends(id, moments[j].world.removals[k])
  {
    RunAccounts(c, moments, turns, i, j, id);
  }

  lemma {:induction false} RunAccounts(c: Config, moments: seq<Moment>, turns: seq<Turn>, i: nat, j: nat, id: string)
    requires IsRun(c, moments, turns) && i <= j < |moments|
    requires Good(c, moments[i].world.records, id) && (id in moments[i].held ==> !moments[i].held[id].making)
    ensures var before := |moments[i].world.removals|;
            before <= |moments[j].world.removals| && Accounted(c, id, before, moments[j])
    decreases j - i
  {
    hide Moves, MomentOk;
    if i < j {
      RunAccounts(c, moments, turns, i, j - 1, id);
      RunKeeps(c, moments, turns, j - 1);
      MovesAccount(c, moments[j - 1], turns[j - 1], moments[j], id, |moments[i].world.removals|);
    }
  }

  ghost predicate Alone(turns: seq<Turn>, i: nat, j: nat, id: string)
    requires i <= j <= |turns|
  {
    forall k :: i <= k < j ==> Actor(turns[k]) != Some(id)
  }

  lemma MovesWane(c: Config, a: Moment, turn: Turn, b: Moment, id: string)
    requires Configured(c) && MomentOk(c, a) && Moves(c, a, turn, b) && id in a.held && Actor(turn) != Some(id)
    ensures Wanes(c, id, a.world, b.world) && id in b.held
  {
    hide StageOk, Allowed, Apply;
    MovesKeep(c, a, turn, b);
    match turn
    case Act(other, e) => EffectSpares(c, other, a.world, e, id);
    case Remove(other) =>
      FinishedIsJustified(c, a.world, other, a.held[other]);
      RemovalSpares(c, other, a.world, a.held[other].making, a.held[other].blind, id);
    case Outside =>
    case _ => WanesReflexive(c, id, a.world);
  }

  lemma RemovalSpares(c: Config, id: string, w: World, rollback: bool, blind: bool, other: string)
    requires Configured(c) && Sound(w) && Allowed(c, id, w, RemoveRecord(rollback, blind)) && other != id
    ensures Wanes(c, other, w, WithoutRecord(c, id, w, rollback, blind))
  {
    EffectSpares(c, id, w, RemoveRecord(rollback, blind), other);
  }

  /** While a lock holder does nothing itself, whatever everybody else does together is what
      it has to reckon with. */
  lemma {:induction false} HolderReliesOn(c: Config, moments: seq<Moment>, turns: seq<Turn>, i: nat, j: nat, id: string)
    requires IsRun(c, moments, turns) && i <= j < |moments| && id in moments[i].held && Alone(turns, i, j, id)
    ensures Wanes(c, id, moments[i].world, moments[j].world) && id in moments[j].held
    decreases j - i
  {
    hide Moves, Wanes, StageOk, Sound;
    RunKeeps(c, moments, turns, i);
    if i == j {
      WanesReflexive(c, id, moments[i].world);
    } else {
      HolderReliesOn(c, moments, turns, i, j - 1, id);
      RunKeeps(c, moments, turns, j - 1);
      MovesWane(c, moments[j - 1], turns[j - 1], moments[j], id);
      WanesTransitive(c, id, moments[i].world, moments[j - 1].world, moments[j].world);
    }
  }

  // ----- One holder's part of it

  /** One turn of the holder of one lock, or all that others do between two of its turns. */
  ghost predicate HolderMove(c: Config, id: string, a: Moment, turn: Option<Turn>, b: Moment) {
    match turn
    case None => b.held == a.held && Wanes(c, id, a.world, b.world)
    case Some(own) => Actor(own) == Some(id) && !own.Acquire? && !own.Release? && Moves(c, a, own, b)
  }

  /** What happens from taking a lock on, as its holder sees it. */
  ghost predicate HolderRun(c: Config, id: string, moments: seq<Moment>, turns: seq<Option<Turn>>) {
    && |moments| == |turns| + 1 && moments[0].held == map[id := AT_LOCK]
    && forall i :: 0 <= i < |turns| ==> HolderMove(c, id, moments[i], turns[i], moments[i + 1])
  }

  /** The holder had this effect at one of its turns. */
  ghost predicate Asked(id: string, e: Effect, turns: seq<Option<Turn>>) { Some(Turn.Act(id, e)) in turns }

  /** It did nothing but write its record. */
  ghost predicate OnlyWrote(turns: seq<Option<Turn>>) {
    forall k :: 0 <= k < |turns| && turns[k].Some? ==> turns[k].value.Act? && turns[k].value.effect.WriteRecord?
  }

  /** It had this effect, and did nothing since but write its record. */
  ghost predicate Latest(id: string, e: Effect, turns: seq<Option<Turn>>) {
    exists k :: 0 <= k < |turns| && turns[k] == Some(Turn.Act(id, e)) && OnlyWrote(turns[k + 1..])
  }

  lemma LatestNow(id: string, e: Effect, turns: seq<Option<Turn>>)
    ensures Latest(id, e, turns + [Some(Turn.Act(id, e))])
  {
    var more := turns + [Some(Turn.Act(id, e))];
    assert more[|turns|] == Some(Turn.Act(id, e)) && more[|turns| + 1..] == [];
  }

  lemma LatestMore(id: string, turns: seq<Option<Turn>>, turn: Option<Turn>)
    requires turn.Some? ==> turn.value.Act? && turn.value.effect.WriteRecord?
    ensures forall e :: Latest(id, e, turns) ==> Latest(id, e, turns + [turn])
  {
    var more := turns + [turn];
    forall e | Latest(id, e, turns)
      ensures Latest(id, e, more)
    {
      var k :| 0 <= k < |turns| && turns[k] == Some(Turn.Act(id, e)) && OnlyWrote(turns[k + 1..]);
      assert more[k] == turns[k] && more[k + 1..] == turns[k + 1..] + [turn];
      OnlyWroteMore(turns[k + 1..], turn);
    }
  }

  lemma OnlyWroteMore(turns: seq<Option<Turn>>, turn: Option<Turn>)
    requires OnlyWrote(turns) && (turn.Some? ==> turn.value.Act? && turn.value.effect.WriteRecord?)
    ensures OnlyWrote(turns + [turn])
  {
  }

  /** A holder's part so far, up to where it now stands. */
  ghost predicate Traced(c: Config, id: string, making: bool, asked: set<Effect>, stage: Stage, moments: seq<Moment>,
                         turns: seq<Option<Turn>>, w: World) {
    && (forall e :: e in asked ==> Asked(id, e, turns))
    && Sound(w) && stage.making == making && StageOk(c, w, id, stage) && HolderRun(c, id, moments, turns)
    && moments[|moments| - 1] == Moment(w, map[id := stage])
  }

  lemma AskedMore(id: string, turns: seq<Option<Turn>>, turn: Option<Turn>)
    ensures forall e :: Asked(id, e, turns + [turn]) <==> Asked(id, e, turns) || turn == Some(Turn.Act(id, e))
  {
  }

  lemma TracedFromLock(c: Config, id: string, w: World)
    requires Sound(w)
    ensures Traced(c, id, false, {}, AT_LOCK, [Moment(w, map[id := AT_LOCK])], [], w)
  {
    FreshStage(c, w, id);
  }

  lemma HolderRunMore(c: Config, id: string, moments: seq<Moment>, turns: seq<Option<Turn>>, turn: Option<Turn>, b: Moment)
    requires HolderRun(c, id, moments, turns) && HolderMove(c, id, moments[|moments| - 1], turn, b)
    ensures HolderRun(c, id, moments + [b], turns + [turn])
  {
    hide HolderMove;
  }

  lemma TracedOthers(c: Config, id: string, making: bool, asked: set<Effect>, stage: Stage, moments: seq<Moment>, turns: seq<Option<Turn>>,
                     w: World, w': World)
    requires Configured(c) && Traced(c, id, making, asked, stage, moments, turns, w) && Wanes(c, id, w, w')
    ensures Traced(c, id, making, asked, stage, moments + [Moment(w', map[id := stage])], turns + [None], w')
  {
    hide HolderRun, StageOk, Sound, OwnEbbs, GoodOrLogged;
    StageStays(c, w, id, stage, w');
    AskedMore(id, turns, None);
    HolderRunMore(c, id, moments, turns, None, Moment(w', map[id := stage]));
  }

  lemma TracedTurn(c: Config, id: string, making: bool, asked: set<Effect>, stage: Stage, moments: seq<Moment>, turns: seq<Option<Turn>>,
                   w: World,
                   turn: Turn, stage': Stage, w': World)
    requires Configured(c) && Traced(c, id, making, asked, stage, moments, turns, w)
    requires Actor(turn) == Some(id) && !turn.Acquire? && !turn.Release?
    requires Moves(c, Moment(w, map[id := stage]), turn, Moment(w', map[id := stage']))
    ensures Traced(c, id, stage'.making, asked, stage', moments + [Moment(w', map[id := stage'])], turns + [Some(turn)], w')
    ensures Extends(c, w, w')
  {
    hide HolderRun, StageOk, Moves;
    MovesKeep(c, Moment(w, map[id := stage]), turn, Moment(w', map[id := stage']));
    AskedMore(id, turns, Some(turn));
    assert Moment(w', map[id := stage']).held[id] == stage';
    HolderRunMore(c, id, moments, turns, Some(turn), Moment(w', map[id := stage']));
  }

  /** What a holder sees of a moment. */
  function Seeing(id: string, a: Moment): Moment
    requires id in a.held
  {
    Moment(a.world, map[id := a.held[id]])
  }

  ghost predicate HeldThroughout(moments: seq<Moment>, turns: seq<Turn>, i: nat, j: nat, id: string)
    requires i <= j <= |turns| && |moments| == |turns| + 1
  {
    && (forall k :: i <= k <= j ==> id in moments[k].held)
    && forall k :: i <= k < j ==> turns[k] != Acquire(id) && turns[k] != Release(id)
  }

  /** In any run, what happens while a lock is held is, as its holder sees it, a holder's run: its
      own turns are turns of the run, and all the rest together is what others may do. So what is
      proved of every holder's run holds in every interleaving. */
  lemma {:induction false} RunAsSeen(c: Config, moments: seq<Moment>, turns: seq<Turn>, i: nat, j: nat, id: string)
    returns (path: seq<Moment>, steps: seq<Option<Turn>>)
    requires IsRun(c, moments, turns) && i <= j < |moments| && HeldThroughout(moments, turns, i, j, id)
    requires moments[i].held[id] == AT_LOCK
    ensures HolderRun(c, id, path, steps) && |steps| == j - i
    ensures path[0] == Seeing(id, moments[i]) && path[|path| - 1] == Seeing(id, moments[j])
    ensures forall k :: 0 <= k < j - i ==> steps[k] == if Actor(turns[i + k]) == Some(id) then Some(turns[i + k]) else None
    decreases j - i
  {
    hide Moves, HolderMove, StageOk;
    if i == j {
      path, steps := [Seeing(id, moments[i])], [];
    } else {
      path, steps := RunAsSeen(c, moments, turns, i, j - 1, id);
      RunKeeps(c, moments, turns, j - 1);
      var step := if Actor(turns[j - 1]) == Some(id) then Some(turns[j - 1]) else None;
      MoveAsSeen(c, moments[j - 1], turns[j - 1], moments[j], id);
      HolderRunMore(c, id, path, steps, step, Seeing(id, moments[j]));
      path, steps := path + [Seeing(id, moments[j])], steps + [step];
    }
  }

  lemma MoveAsSeen(c: Config, a: Moment, turn: Turn, b: Moment, id: string)
    requires Configured(c) && MomentOk(c, a) && Moves(c, a, turn, b) && id in a.held && id in b.held
    requires turn != Acquire(id) && turn != Release(id)
    ensures HolderMove(c, id, Seeing(id, a), if Actor(turn) == Some(id) then Some(turn) else None, Seeing(id, b))
  {
    hide StageOk, Allowed, Apply, Steps, Finished, WithoutRecord, Sound, OwnEbbs, GoodOrLogged;
    if Actor(turn) != Some(id) {
      MovesWane(c, a, turn, b, id);
      OthersKeepStage(c, a, turn, b, id);
    }
  }

  lemma OthersKeepStage(c: Config, a: Moment, turn: Turn, b: Moment, id: string)
    requires Moves(c, a, turn, b) && id in a.held && id in b.held && Actor(turn) != Some(id)
    ensures b.held[id] == a.held[id]
  {
    hide StageOk, Allowed, Apply, Steps, Finished, WithoutRecord, Sound, OwnEbbs;
  }
}
