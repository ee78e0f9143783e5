/** Terminal bridges as processes: finding them, stopping them, and keeping exactly one. */
module SessionBridge {
  import opened Text
  import opened Registry
  import opened BridgeCommands
  import opened SessionWorld

  datatype ErrorKind = InvalidName | Conflict | NotFound | Dependency | BridgeIncomplete
  datatype Result<T> = Ok(value: T) | Err(kind: ErrorKind)

  const MAX_SOCKET_PATH := 100

  // ----- Dependencies that may fail, and others who act in between

  /** How often a dependency failed, a bridge was missed for want of sight, somebody else
      changed the world, and a record was written; and the last PID that ensuring a bridge
      reported. */
  datatype Tally = Tally(failures: nat, blind: nat, disturbed: nat, writes: nat, reported: int)

  predicate Later(a: Tally, b: Tally) {
    a.failures <= b.failures && a.blind <= b.blind && a.disturbed <= b.disturbed && a.writes <= b.writes
  }

  function Times(happened: bool): nat { if happened then 1 else 0 }

  /** Nothing failed and nobody interfered. */
  /** One thing went wrong, and no bridge was passed over. */
  predicate FailedOnce(a: Tally, b: Tally) { b.failures == a.failures + 1 && b.blind == a.blind }

  predicate Quiet(a: Tally, b: Tally) { a.failures == b.failures && a.disturbed == b.disturbed }

  lemma TracedMaking(c: Config, id: string, making: bool, asked: set<Effect>, stage: Stage, path: seq<Moment>, turns: seq<Option<Turn>>, w: World)
    requires Traced(c, id, making, asked, stage, path, turns, w)
    ensures stage.making == making && (forall e :: e in asked ==> Asked(id, e, turns))
  {
  }

  lemma WanesKeeps(c: Config, id: string, w: World, w': World)
    requires Wanes(c, id, w, w')
    ensures Keeps(c, id, w, w')
  {
    hide GoodOrLogged;
  }

  lemma PassIsStep(c: Config, m: Session, w: World, stage: Stage, pid: int, still: bool)
    requires stage.scanned && Recorded(c, m, w.records) && still == (pid in Bridges(c, m, w.processes)) && (still ==> !Verifiable(w, pid))
    ensures Steps(c, w, stage, Pass(m.id, pid), stage.(left := stage.left - {pid}, blind := stage.blind || still))
  {
  }

  /** The stage after the listed processes were handled, with so many bridges missed since. */
  ghost predicate Handled(stage: Stage, stage': Stage, recorded: bool, done: seq<int>, ok: bool, missed: int) {
    && stage' == stage.(left := stage'.left, blind := stage'.blind)
    && (stage.scanned && recorded && ok ==> stage'.left == stage.left - SetOf(done))
    && (stage'.blind ==> stage.blind || missed > 0) && (missed == 0 ==> stage'.blind == stage.blind)
  }

  lemma NoneHandled(stage: Stage, recorded: bool)
    ensures Handled(stage, stage, recorded, [], true, 0)
  {
    assert SetOf([]) == {};
  }

  lemma HandledMore(stage: Stage, stage': Stage, stage'': Stage, recorded: bool, done: seq<int>, ok: bool, missed: int,
                    pid: int, stopped: bool, missed': int)
    requires Handled(stage, stage', recorded, done, ok, missed) && 0 <= missed <= missed'
    requires stage'' == if stopped && stage'.scanned && recorded
                        then stage'.(left := stage'.left - {pid}, blind := stage'.blind || missed' > missed) else stage'
    ensures Handled(stage, stage'', recorded, done + [pid], ok && stopped, missed')
  {
    assert SetOf(done + [pid]) == SetOf(done) + {pid};
  }

  lemma WanesLeaves(c: Config, id: string, w: World, w': World)
    requires Wanes(c, id, w, w')
    ensures SameRecord(w.records, w'.records, id) && SameTmux(id, w, w') && Keeps(c, id, w, w')
    ensures NoNewBridges(c, id, w.processes, w'.processes) && NoNewListener(w.listeners, w'.listeners, id)
  {
    hide GoodOrLogged;
  }

  /** What others do takes bridges away at most, and leaves the record. */
  lemma LeftByOthers(c: Config, m: Session, w: World, w': World)
    requires Configured(c) && Placed(c, m) && Wanes(c, m.id, w, w')
    ensures forall pid :: pid in Bridges(c, m, w'.processes) ==> pid in Bridges(c, m, w.processes)
    ensures Recorded(c, m, w'.records) == Recorded(c, m, w.records)
  {
    hide GoodOrLogged, KindIn, Serves, Canonical;
    BridgesWane(c, m, w.processes, w'.processes, w'.starts);
  }

  lemma OnlyHeld(id: string, stage: Stage, stage': Stage)
    ensures map[id := stage][id := stage'] == map[id := stage']
  {
  }

  lemma ActIsTurn(c: Config, id: string, w: World, stage: Stage, e: Effect)
    requires Allowed(c, id, w, e) && !e.RemoveRecord?
    ensures Moves(c, Moment(w, map[id := stage]), Turn.Act(id, e), Moment(Apply(c, id, w, e), map[id := StageAfter(id, stage, e)]))
  {
    hide Allowed, Apply;
    OnlyHeld(id, stage, StageAfter(id, stage, e));
  }

  lemma RemoveIsTurn(c: Config, id: string, w: World, stage: Stage)
    requires stage.making || Finished(id, RefIn(w.records, id), stage)
    ensures Moves(c, Moment(w, map[id := stage]), Turn.Remove(id),
                  Moment(WithoutRecord(c, id, w, stage.making, stage.blind), map[id := stage.(scanned := false)]))
  {
    hide WithoutRecord, Finished;
    OnlyHeld(id, stage, stage.(scanned := false));
  }

  lemma LookIsTurn(c: Config, id: string, w: World, stage: Stage, turn: Turn, stage': Stage)
    requires Actor(turn) == Some(id) && Steps(c, w, stage, turn, stage')
    ensures Moves(c, Moment(w, map[id := stage]), turn, Moment(w, map[id := stage']))
  {
    OnlyHeld(id, stage, stage');
  }

  lemma NoLogs(c: Config, id: string, w: World, e: Effect)
    requires Sound(w) && Allowed(c, id, w, e) && !e.RemoveRecord? && !e.EndTmux?
    ensures Keeps(c, id, w, Apply(c, id, w, e))
  {
    EffectKeeps(c, id, w, e);
  }

  /** The record is this very session, and canonical. */
  predicate Recorded(c: Config, m: Session, records: map<string, Stored>) {
    Readable(c, records, m.id) && records[m.id].session == m
  }

  /** The machine as the program meets it. While a lock is held, `path` and `turns` are what has
      happened since, as its holder sees it, and `stage` is how far the holder has come. */
  class Host {
    const c: Config
    var w: World
    var t: Tally
    ghost var holder: Option<string>
    var making: bool
    ghost var asked: set<Effect>
    var stage: Stage
    ghost var path: seq<Moment>
    ghost var turns: seq<Option<Turn>>

    ghost predicate Valid()
      reads this
    {
      && Configured(c) && Sound(w)
      && (holder.Some? ==> Traced(c, holder.value, making, asked, stage, path, turns, w))
    }

    constructor (c: Config, w: World)
      requires Configured(c) && Sound(w)
      ensures Valid() && this.c == c && this.w == w && t == Tally(0, 0, 0, 0, 0) && holder == None
    {
      this.c, this.w, t := c, w, Tally(0, 0, 0, 0, 0);
      holder := None;
      making, asked, stage := false, {}, AT_LOCK;
    }

    /** Any call to a dependency may fail. */
    method Fails() returns (failed: bool)
      modifies this`t
      ensures t == if failed then old(t).(failures := old(t).failures + 1) else old(t)
    {
      failed := false;
      if * {
        failed := true;
        t := t.(failures := t.failures + 1);
      }
    }

    /** Keeps count of missed bridges; the world decides whether one is missed. */
    method Missed(missed: bool)
      modifies this`t
      ensures t == if missed then old(t).(blind := old(t).blind + 1) else old(t)
    {
      if missed {
        t := t.(blind := t.blind + 1);
      }
    }

    /** Whatever happens while no lock is held. */
    method OthersAct()
      requires Valid()
      modifies this
      ensures Valid() && Extends(c, old(w), w) && holder == None
      ensures t == old(t).(disturbed := t.disturbed) && old(t).disturbed <= t.disturbed
      ensures t == old(t) ==> w == old(w)
    {
      holder := None;
      var next: World := *;
      if Sound(next) && Extends(c, w, next) {
        w, t := next, t.(disturbed := t.disturbed + 1);
      }
    }

    /** The lock of a session is taken. */
    method Take(id: string)
      requires Valid()
      modifies this`holder, this`making, this`asked, this`stage, this`path, this`turns
      ensures Valid() && holder == Some(id) && !making && asked == {} && stage == AT_LOCK && OnlyWrote(turns)
    {
      TracedFromLock(c, id, w);
      holder := Some(id);
      making, asked, stage := false, {}, AT_LOCK;
      path, turns := [Moment(w, map[id := AT_LOCK])], [];
    }

    /** Whatever others do while the lock of `id` is held. */
    method Interfere(id: string)
      requires Valid() && holder == Some(id)
      modifies this`w, this`t, this`path, this`turns
      ensures Valid() && Wanes(c, id, old(w), w)
      ensures t == old(t).(disturbed := t.disturbed) && old(t).disturbed <= t.disturbed
      ensures t == old(t) ==> w == old(w)
      ensures (OnlyWrote(old(turns)) ==> OnlyWrote(turns)) && (forall e :: Latest(id, e, old(turns)) ==> Latest(id, e, turns))
    {
      hide Traced, Latest;
      var next: World := *;
      if Wanes(c, id, w, next) {
        TracedOthers(c, id, making, asked, stage, path, turns, w, next);
        if OnlyWrote(turns) { OnlyWroteMore(turns, None); }
        LatestMore(id, turns, None);
        path, turns := path + [Moment(next, map[id := stage])], turns + [None];
        w, t := next, t.(disturbed := t.disturbed + 1);
      }
    }

    /** One effect of the lock holder, short of removing the record, after which others may act. */
    method Act(id: string, e: Effect)
      requires Valid() && holder == Some(id) && Allowed(c, id, w, e) && !e.RemoveRecord?
      modifies this`w, this`t, this`stage, this`path, this`turns
      ensures Valid() && Extends(c, old(w), w) && Wanes(c, id, Apply(c, id, old(w), e), w)
      ensures !e.EndTmux? ==> Keeps(c, id, old(w), w)
      ensures stage == StageAfter(id, old(stage), e)
      ensures t == old(t).(disturbed := t.disturbed) && old(t).disturbed <= t.disturbed
      ensures t == old(t) ==> w == Apply(c, id, old(w), e)
      ensures e.WriteRecord? ==> (OnlyWrote(old(turns)) ==> OnlyWrote(turns)) && forall e' :: Latest(id, e', old(turns)) ==> Latest(id, e', turns)
      ensures Latest(id, e, turns)
    {
      hide Traced, Sound, Allowed, GoodOrLogged, OwnEbbs, OnlyWrote, Asked, Latest;
      TracedMaking(c, id, making, asked, stage, path, turns, w);
      ActIsTurn(c, id, w, stage, e);
      EffectKeeps(c, id, w, e);
      ghost var after := Apply(c, id, w, e);
      var stage' := StageAfter(id, stage, e);
      TracedTurn(c, id, making, asked, stage, path, turns, w, Turn.Act(id, e), stage', after);
      LatestNow(id, e, turns);
      if e.WriteRecord? {
        if OnlyWrote(turns) { OnlyWroteMore(turns, Some(Turn.Act(id, e))); }
        LatestMore(id, turns, Some(Turn.Act(id, e)));
      }
      path, turns := path + [Moment(after, map[id := stage'])], turns + [Some(Turn.Act(id, e))];
      w := Apply(c, id, w, e);
      stage := stage';
      Interfere(id);
      ExtendsTransitive(c, old(w), after, w);
      if !e.EndTmux? {
        NoLogs(c, id, old(w), e);
        WanesKeeps(c, id, after, w);
        KeepsTransitive(c, id, old(w), after, w);
      }
    }

    /** One effect that is kept in mind until the lock is given back. */
    method Ask(id: string, e: Effect)
      requires Valid() && holder == Some(id) && (e.BeginTmux? || e.Configure?)
      modifies this`w, this`t, this`asked, this`stage, this`path, this`turns
      ensures Valid() && Keeps(c, id, old(w), w) && Wanes(c, id, Apply(c, id, old(w), e), w)
      ensures asked == old(asked) + {e} && Latest(id, e, turns)
      ensures t == old(t).(disturbed := t.disturbed) && old(t).disturbed <= t.disturbed
      ensures t == old(t) ==> w == Apply(c, id, old(w), e)
    {
      hide GoodOrLogged, OwnEbbs, HolderRun, StageOk, Sound;
      Act(id, e);
      assert Asked(id, e, turns);
      asked := asked + {e};
    }

    /** Removing the record, which rests on what the holder has gone through. */
    method Remove(id: string)
      requires Valid() && holder == Some(id) && (making || Finished(id, RefIn(w.records, id), stage))
      modifies this`w, this`t, this`stage, this`path, this`turns
      ensures Valid() && Allowed(c, id, old(w), RemoveRecord(making, old(stage.blind)))
      ensures Extends(c, old(w), w) && Wanes(c, id, WithoutRecord(c, id, old(w), making, old(stage.blind)), w)
      ensures t == old(t).(disturbed := t.disturbed) && old(t).disturbed <= t.disturbed
      ensures t == old(t) ==> w == WithoutRecord(c, id, old(w), making, old(stage.blind))
    {
      hide Finished, Allowed, GoodOrLogged, OwnEbbs, HolderRun;
      FinishedIsJustified(c, w, id, stage);
      RemoveIsTurn(c, id, w, stage);
      ghost var after := WithoutRecord(c, id, w, making, stage.blind);
      var stage' := stage.(scanned := false);
      TracedTurn(c, id, making, asked, stage, path, turns, w, Turn.Remove(id), stage', after);
      path, turns := path + [Moment(after, map[id := stage'])], turns + [Some(Turn.Remove(id))];
      w := WithoutRecord(c, id, w, making, stage.blind);
      stage := stage';
      Interfere(id);
      ExtendsTransitive(c, old(w), after, w);
    }

    /** Looking at something changes only what the holder knows. */
    method Look(id: string, turn: Turn, stage': Stage)
      requires Valid() && holder == Some(id) && Actor(turn) == Some(id)
      requires (turn.Scan? || turn.Pass? || turn.SeeDead?) && Steps(c, w, stage, turn, stage')
      modifies this`stage, this`path, this`turns
      ensures Valid() && stage == stage'
    {
      hide Traced, Latest;
      TracedMaking(c, id, making, asked, stage, path, turns, w);
      LookIsTurn(c, id, w, stage, turn, stage');
      TracedTurn(c, id, making, asked, stage, path, turns, w, turn, stage', w);
      path, turns := path + [Moment(w, map[id := stage'])], turns + [Some(turn)];
      stage := stage';
    }

    /** No good record was found, and the holder goes on to make the session. */
    method SeeNoRecord(id: string)
      requires Valid() && holder == Some(id) && !Good(c, w.records, id)
      modifies this`making, this`stage, this`path, this`turns
      ensures Valid() && making
    {
      hide Traced, Latest;
      var stage' := stage.(making := true);
      LookIsTurn(c, id, w, stage, Turn.SeeNoRecord(id), stage');
      TracedTurn(c, id, making, asked, stage, path, turns, w, Turn.SeeNoRecord(id), stage', w);
      path, turns := path + [Moment(w, map[id := stage'])], turns + [Some(Turn.SeeNoRecord(id))];
      making, stage := true, stage';
    }

    /** An effect that only takes away. */
    method Destroy(id: string, e: Effect)
      requires Valid() && holder == Some(id) && Allowed(c, id, w, e) && Destroys(e)
      modifies this`w, this`t, this`stage, this`path, this`turns
      ensures Valid() && Wanes(c, id, old(w), w) && Wanes(c, id, Apply(c, id, old(w), e), w)
      ensures stage == StageAfter(id, old(stage), e)
      ensures t == old(t).(disturbed := t.disturbed) && old(t).disturbed <= t.disturbed
      ensures t == old(t) ==> w == Apply(c, id, old(w), e)
    {
      hide Traced, Latest, GoodOrLogged, OwnEbbs;
      DestructionWanes(c, id, w, e);
      ghost var after := Apply(c, id, w, e);
      Act(id, e);
      WanesTransitive(c, id, old(w), after, w);
    }

    /** Kills whatever tmux session has the name. */
    method Kill(id: string)
      requires Valid() && holder == Some(id)
      modifies this`w, this`t, this`stage, this`path, this`turns
      ensures Valid() && Ebbs(c, id, old(w), w) && id !in w.tmux
      ensures stage == old(stage).(dead := true)
      ensures t == old(t).(disturbed := t.disturbed) && old(t).disturbed <= t.disturbed
      ensures t == old(t) ==> w == Apply(c, id, old(w), EndTmux)
    {
      EndTmuxEbbs(c, id, w);
      ghost var after := Apply(c, id, w, EndTmux);
      Act(id, EndTmux);
      EbbsTransitive(c, id, old(w), after, w);
    }
  }

  // ----- Listing a session's bridges

  ghost function OfKind(kinds: map<int, Kind>, kind: Kind): set<int> { set pid | pid in kinds && kinds[pid] == kind }

  ghost function Currents(c: Config, m: Session, processes: map<int, Process>): set<int> {
    OfKind(Kinds(c, m, processes), Current)
  }

  ghost predicate ListsKind(pids: seq<int>, kinds: map<int, Kind>, kind: Kind) {
    NoRepeats(pids) && forall pid :: pid in pids <==> pid in OfKind(kinds, kind)
  }

  ghost predicate Lists(kinds: map<int, Kind>, v: Verified) {
    ListsKind(v.current, kinds, Current) && ListsKind(v.legacy, kinds, Legacy)
  }

  lemma ListsKindAdd(pids: seq<int>, kinds: map<int, Kind>, kind: Kind, pid: int, its: Kind)
    requires ListsKind(pids, kinds, kind) && pid !in kinds
    ensures ListsKind(if its == kind then pids + [pid] else pids, kinds[pid := its], kind)
  {
    NoRepeatsSnoc(pids, pid);
    var more := kinds[pid := its];
    assert OfKind(more, kind) == OfKind(kinds, kind) + (if its == kind then {pid} else {});
  }

  lemma ListsAdd(kinds: map<int, Kind>, v: Verified, pid: int, its: Kind)
    requires Lists(kinds, v) && pid !in kinds
    ensures Lists(kinds[pid := its], Add(v, pid, its))
  {
    ListsKindAdd(v.current, kinds, Current, pid, its);
    ListsKindAdd(v.legacy, kinds, Legacy, pid, its);
  }

  lemma ListsDistinct(kinds: map<int, Kind>, v: Verified)
    requires Lists(kinds, v) && forall pid :: pid in Related(kinds) ==> pid > 1
    ensures Distinct(v) && forall pid :: pid in v.current || pid in v.legacy <==> pid in Related(kinds)
  {
    NoRepeatsConcat(v.current, v.legacy);
    assert forall pid :: pid in kinds ==> kinds[pid].Current? || kinds[pid].Legacy? || kinds[pid].Unrelated?;
    assert forall pid :: pid in v.current || pid in v.legacy <==> pid in Related(kinds);
  }

  lemma NotEmpty(pids: set<int>)
    requires pids != {}
    ensures exists pid :: pid in pids
  {
    if forall pid :: pid !in pids { assert false; }
  }

  method AnyOf(pids: set<int>) returns (pid: int)
    requires pids != {}
    ensures pid in pids
  {
    NotEmpty(pids);
    pid :| pid in pids;
  }

  method ListBridges(kinds: map<int, Kind>) returns (v: Verified)
    ensures Lists(kinds, v) && Ordered(v.current)
  {
    v := Verified([], []);
    var left := kinds.Keys;
    ghost var seen: map<int, Kind> := map[];
    while left != {}
      invariant left <= kinds.Keys && seen == map pid | pid in kinds && pid !in left :: kinds[pid]
      invariant Lists(seen, v)
      decreases left
    {
      var pid := AnyOf(left);
      ListsAdd(seen, v, pid, kinds[pid]);
      v := Add(v, pid, kinds[pid]);
      left := left - {pid};
      seen := seen[pid := kinds[pid]];
    }
    assert seen == kinds;
    SortKeeps(v.current);
    SortKeeps(v.legacy);
    SortOrders(v.current);
    v := Verified(Sort(v.current), Sort(v.legacy));
  }

  // ----- The bridge that stays

  /** None if the socket does not answer or no current bridge is seen; else the registered one,
      or failing that the one with the lowest PID. */
  ghost predicate Chosen(c: Config, m: Session, w: World, keep: int) {
    var currents := Currents(c, m, Seen(w, m));
    if !Ready(w, m.id) || currents == {} then keep == 0
    else
      && keep in currents && (m.pid in currents ==> keep == m.pid)
      && (m.pid !in currents ==> forall pid :: pid in currents ==> keep <= pid)
  }

  lemma KeepIsChosen(c: Config, m: Session, w: World, v: Verified)
    requires Lists(Kinds(c, m, Seen(w, m)), v) && Ordered(v.current)
    ensures Chosen(c, m, w, Keep(v, m.pid, Ready(w, m.id)))
  {
    hide KindIn, Canonical;
    assert v.current != [] ==> v.current[0] in v.current;
    assert v.current == [] ==> Currents(c, m, Seen(w, m)) == {};
    OrderedLeast(v.current);
  }

  /** The plan stops all of a session's bridges but the one it keeps, which is current. */
  lemma PlanStopsOthers(c: Config, m: Session, processes: map<int, Process>, v: Verified, ready: bool)
    requires Lists(Kinds(c, m, processes), v)
    ensures var keep := Keep(v, m.pid, ready);
            && (forall pid :: pid in Stops(v, m.pid, ready) <==> pid in Bridges(c, m, processes) && pid != keep)
            && (keep == 0 || (keep > 1 && keep in Currents(c, m, processes)))
  {
    hide KindIn, Canonical;
    BridgesAboveInit(c, m, processes);
    ListsDistinct(Kinds(c, m, processes), v);
    PlanLeavesOne(v, m.pid, ready);
  }

  /** No other process is recognised as a bridge, and if this one is on the socket it is current. */
  ghost predicate OnlyBridge(c: Config, m: Session, processes: map<int, Process>, pid: int) {
    && Bridges(c, m, processes) <= {pid}
    && (pid in processes && Serves(c, m.id, processes[pid]) ==> KindIn(c, m, pid, processes[pid]) == Current)
  }

  /** The world after a bridge was started. */
  function Begun(m: Session, w: World, pid: int, argv: Argv): World
    requires w.sight.ttyd.Some?
  {
    w.(processes := w.processes[pid := Process(w.starts, w.sight.ttyd.value, argv)],
       listeners := w.listeners[m.id := Listener(pid, w.starts)],
       files := w.files + {LogFile(m.id), SocketFile(m.id)}, starts := w.starts + 1)
  }

  /** The world without those of a session's bridges that can be seen. */
  function Cleared(c: Config, m: Session, w: World): World { w.(processes := w.processes - SeenBridges(c, m, w)) }

  /** The world without a session's socket. */
  function SocketGone(m: Session, w: World): World {
    w.(files := w.files - {SocketFile(m.id)}, listeners := w.listeners - {m.id})
  }

  lemma SocketReplaced(m: Session, w: World, pid: int, argv: Argv)
    requires w.sight.ttyd.Some?
    ensures Begun(m, SocketGone(m, w), pid, argv) == Begun(m, w, pid, argv)
  {
    assert (w.listeners - {m.id})[m.id := Listener(pid, w.starts)] == w.listeners[m.id := Listener(pid, w.starts)];
  }

  /** What ensuring a bridge does when nothing fails and nobody interferes. */
  ghost predicate Tended(c: Config, m: Session, w: World, keep: int, r: Result<int>, w': World) {
    && Chosen(c, m, w, keep) && w'.records == w.records && w'.tmux == w.tmux
    && (keep != 0 ==> r == Ok(keep) && w' == w.(processes := w.processes - (SeenBridges(c, m, w) - {keep})))
    && (keep == 0 && |m.socket| > MAX_SOCKET_PATH ==> r == Err(BridgeIncomplete) && w' == SocketGone(m, Cleared(c, m, w)))
    && (keep == 0 && |m.socket| <= MAX_SOCKET_PATH ==>
          r.Ok? && r.value > 1 && r.value !in Cleared(c, m, w).processes && Verifiable(w', r.value) && w.sight.ttyd.Some? &&
          exists argv :: IsLaunched(c, m, argv) && w' == Begun(m, Cleared(c, m, w), r.value, argv))
  }

  lemma TendedFrame(c: Config, m: Session, w: World, keep: int, r: Result<int>, w': World)
    requires Tended(c, m, w, keep, r, w')
    ensures w'.records == w.records && w'.tmux == w.tmux && (r.Err? ==> Chosen(c, m, w, 0))
  {
  }

  lemma SameSight(c: Config, m: Session, w: World, w': World)
    requires w' == w.(records := w'.records)
    ensures Seen(w', m) == Seen(w, m) && SeenBridges(c, m, w') == SeenBridges(c, m, w)
    ensures forall keep :: Chosen(c, m, w', keep) <==> Chosen(c, m, w, keep)
  {
    hide KindIn;
    assert forall pid :: pid in w.processes ==> Visible(w', m, pid) == Visible(w, m, pid);
    assert Seen(w', m) == Seen(w, m);
    assert Ready(w', m.id) == Ready(w, m.id);
  }

  /** Records have nothing to do with it. */
  lemma TendedAnyRecords(c: Config, m: Session, w: World, keep: int, r: Result<int>, w': World, records: map<string, Stored>)
    requires Tended(c, m, w, keep, r, w') && r.Ok?
    ensures Tended(c, m, w.(records := records), keep, r, w'.(records := records))
  {
    hide KindIn, Related, Kinds, IsLaunched, Chosen;
    SameSight(c, m, w, w.(records := records));
    if keep == 0 && |m.socket| <= MAX_SOCKET_PATH {
      var argv :| IsLaunched(c, m, argv) && w' == Begun(m, Cleared(c, m, w), r.value, argv);
      assert w'.(records := records) == Begun(m, Cleared(c, m, w.(records := records)), r.value, argv);
    }
  }

  ghost function SetOf(pids: seq<int>): set<int> { set pid | pid in pids }

  /** The bridges that can be recognised when looked at one by one. */
  ghost function VerifiableBridges(c: Config, m: Session, w: World): set<int> {
    set pid | pid in Bridges(c, m, w.processes) && Verifiable(w, pid)
  }

  /** The world without those of the listed processes that are recognised as bridges. */
  ghost function Stopped(c: Config, m: Session, w: World, pids: seq<int>): World {
    w.(processes := w.processes - (SetOf(pids) * VerifiableBridges(c, m, w)))
  }

  lemma RelatedLeft(c: Config, m: Session, processes: map<int, Process>, gone: set<int>)
    ensures Bridges(c, m, processes - gone) == Bridges(c, m, processes) - gone
  {
    var left := processes - gone;
    assert forall pid :: pid in left <==> pid in processes && pid !in gone;
    assert Kinds(c, m, left) == Kinds(c, m, processes) - gone;
  }

  lemma StoppedNext(c: Config, m: Session, w: World, pids: seq<int>, pid: int)
    ensures var s := Stopped(c, m, w, pids);
            s.(processes := s.processes - ({pid} * VerifiableBridges(c, m, s))) == Stopped(c, m, w, pids + [pid])
  {
    var gone := SetOf(pids) * VerifiableBridges(c, m, w);
    RelatedLeft(c, m, w.processes, gone);
    assert VerifiableBridges(c, m, Stopped(c, m, w, pids)) == VerifiableBridges(c, m, w) - gone;
    assert SetOf(pids + [pid]) == SetOf(pids) + {pid};
    assert w.processes - gone - ({pid} * (VerifiableBridges(c, m, w) - gone))
        == w.processes - (SetOf(pids + [pid]) * VerifiableBridges(c, m, w));
  }

  lemma StoppedVerifiable(c: Config, m: Session, w: World, pids: seq<int>, pid: int)
    requires Verifiable(w, pid)
    ensures pid in Bridges(c, m, Stopped(c, m, w, pids).processes) ==> Verifiable(Stopped(c, m, w, pids), pid)
  {
    BridgesAre(c, m, Stopped(c, m, w, pids).processes);
  }

  /** A search that misses nothing lists all bridges. */
  lemma NotBlindLists(c: Config, m: Session, w: World, v: Verified)
    requires !Blind(c, m, w) && Lists(Kinds(c, m, Seen(w, m)), v)
    ensures Lists(Kinds(c, m, w.processes), v)
  {
    hide KindIn;
    SeenAre(c, m, w);
    var seen, all := Kinds(c, m, Seen(w, m)), Kinds(c, m, w.processes);
    forall kind | kind != Unrelated
      ensures OfKind(seen, kind) == OfKind(all, kind)
    {
      forall pid | pid in OfKind(all, kind)
        ensures pid in OfKind(seen, kind)
      {
        assert pid in Bridges(c, m, w.processes);
      }
    }
  }

  /** A process that a search passes over, and why: ttyd is not found, or has been replaced by
      another file since the process began, or the process's entry cannot be read, or nothing is
      listed and it is not the registered process. */
  predicate PassedOver(w: World, m: Session, pid: int)
    requires pid in w.processes
  {
    || w.sight.ttyd.None? || w.sight.ttyd.value != w.processes[pid].exe
    || pid in w.sight.hidden || (!w.sight.procListed && pid != m.pid)
  }

  lemma MissingFrom(a: set<int>, b: set<int>)
    requires !(a <= b)
    ensures exists pid :: pid in a && pid !in b
  {
    if forall pid :: pid in a ==> pid in b { assert false; }
  }

  /** A search is blind exactly when it passes over a process with the command line of a bridge. */
  lemma BlindTo(c: Config, m: Session, w: World)
    ensures Blind(c, m, w) <==>
      exists pid :: pid in w.processes && KindIn(c, m, pid, w.processes[pid]) != Unrelated && PassedOver(w, m, pid)
  {
    SeenAre(c, m, w);
    BridgesAre(c, m, w.processes);
    hide Bridges, SeenBridges, KindIn;
    if Blind(c, m, w) {
      MissingFrom(Bridges(c, m, w.processes), SeenBridges(c, m, w));
      var pid :| pid in Bridges(c, m, w.processes) && pid !in SeenBridges(c, m, w);
      assert PassedOver(w, m, pid);
    }
  }

  lemma BridgesAre(c: Config, m: Session, processes: map<int, Process>)
    ensures forall pid :: pid in Bridges(c, m, processes) <==> pid in processes && KindIn(c, m, pid, processes[pid]) != Unrelated
  {
  }

  /** A process that serves a session's socket and that stopping the session's bridges does not
      stop: its command line is not recognised, or it is passed over. */
  predicate Spared(c: Config, m: Session, w: World, pid: int) {
    && pid in w.processes && Serves(c, m.id, w.processes[pid])
    && (KindIn(c, m, pid, w.processes[pid]) == Unrelated || PassedOver(w, m, pid))
  }

  /** Exactly which processes on the session's socket are left when every bridge that is seen is
      stopped, and so exactly when one is. */
  lemma StopLeavesServer(c: Config, m: Session, w: World)
    ensures var left := ServersOf(c, m.id, Cleared(c, m, w).processes);
            && (forall pid :: pid in left <==> Spared(c, m, w, pid))
            && (left != map[] <==> exists pid :: Spared(c, m, w, pid))
  {
    hide KindIn, Serves, Canonical, Bridges, SeenBridges;
    SeenAre(c, m, w);
    BridgesAre(c, m, w.processes);
    var left := ServersOf(c, m.id, Cleared(c, m, w).processes);
    forall pid
      ensures pid in left <==> Spared(c, m, w, pid)
    {
      assert pid in w.processes ==> (Visible(w, m, pid) <==> !PassedOver(w, m, pid));
    }
    if left != map[] { SomeKey(left); }
  }

  lemma SomeKey(processes: map<int, Process>)
    requires processes != map[]
    ensures exists pid :: pid in processes
  {
    if forall pid :: pid !in processes { assert false; }
  }

  /** The record stays and the tmux session, if any, is the one that was there. */
  predicate Holds(c: Config, id: string, w: World, w': World) {
    Keeps(c, id, w, w') && SameRecord(w.records, w'.records, id) && SameTmux(id, w, w')
  }

  lemma HoldsTransitive(c: Config, id: string, a: World, b: World, d: World)
    requires Holds(c, id, a, b) && Holds(c, id, b, d)
    ensures Holds(c, id, a, d)
  {
    KeepsTransitive(c, id, a, b, d);
    SameTmuxTransitive(id, a, b, d);
  }

  lemma LaunchedNulFree(c: Config, m: Session, argv: Argv)
    requires Configured(c) && IsLaunched(c, m, argv)
    ensures NulFree(argv)
  {
    hide Canonical, Itoa;
    var scrollback := Itoa(c.scrollback);
    SessionNulFree(c.stateDir, m);
    ScrollbackNulFree(c.scrollback);
    var plain := BridgeArguments(m, scrollback, c.tmux);
    NulFreeAll(plain);
    NulFreeAll(["scrollback", scrollback]);
    assert NulFree(plain[..6]) && NulFree(plain[7..]);
  }

  lemma ScrollbackNulFree(n: nat)
    ensures NUL !in Itoa(n) && NUL !in "scrollback=" && NUL !in "/terminal/"
  {
  }

  /** A process just launched for a session is its current bridge. */
  lemma LaunchedIsCurrent(c: Config, m: Session, argv: Argv, pid: int, started: nat, exe: nat)
    requires IsLaunched(c, m, argv) && pid > 1
    ensures KindIn(c, m, pid, Process(started, exe, argv)) == Current
  {
    OwnBridgeIsCurrent(c.stateDir, m, Base(c.ttyd), c.tmux, c.ttyd, Itoa(c.scrollback), argv, pid);
  }

  lemma NoNewBridgesTransitive(c: Config, id: string, a: map<int, Process>, b: map<int, Process>, d: map<int, Process>)
    requires NoNewBridges(c, id, a, b) && NoNewBridges(c, id, b, d)
    ensures NoNewBridges(c, id, a, d)
  {
  }

  /** After a start without other bridges, the one just started is the only one. */
  lemma BridgesAfterStart(c: Config, m: Session, before: map<int, Process>, pid: int, p: Process, after: map<int, Process>, starts: nat)
    requires Configured(c) && Canonical(c.stateDir, m) && pid > 1 && IsLaunched(c, m, p.argv) && ProcessesOk(after, starts)
    requires NoNewBridges(c, m.id, before[pid := p], after) && Bridges(c, m, before) == {}
    ensures OnlyBridge(c, m, after, pid)
  {
    BridgesWane(c, m, before[pid := p], after, starts);
    LaunchedIsCurrent(c, m, p.argv, pid, p.started, p.exe);
    forall q | q in Bridges(c, m, after)
      ensures q == pid
    {
      assert q != pid ==> q in Bridges(c, m, before);
    }
  }

  /** After a start that was undone, there is no bridge that was not there before. */
  lemma StartUndone(c: Config, m: Session, before: map<int, Process>, base: map<int, Process>, pid: int, p: Process,
                    launched: map<int, Process>, after: map<int, Process>, starts: nat)
    requires Configured(c) && Canonical(c.stateDir, m) && ProcessesOk(base, starts) && ProcessesOk(after, starts)
    requires NoNewBridges(c, m.id, before, base) && NoNewBridges(c, m.id, base[pid := p], launched) && NoNewBridges(c, m.id, launched, after)
    ensures pid !in Bridges(c, m, after) ==> Bridges(c, m, after) <= Bridges(c, m, before)
  {
    hide KindIn, Serves, Canonical;
    NoNewBridgesTransitive(c, m.id, base[pid := p], launched, after);
    BridgesWane(c, m, base[pid := p], after, starts);
    BridgesWane(c, m, before, base, starts);
    BridgesAre(c, m, base[pid := p]);
    BridgesAre(c, m, base);
  }

  lemma OnlyBridgeStays(c: Config, m: Session, before: map<int, Process>, after: map<int, Process>, pid: int, starts: nat)
    requires Configured(c) && Canonical(c.stateDir, m) && ProcessesOk(after, starts)
    requires NoNewBridges(c, m.id, before, after) && OnlyBridge(c, m, before, pid)
    ensures OnlyBridge(c, m, after, pid)
  {
    BridgesWane(c, m, before, after, starts);
  }

  lemma AllListed(kinds: map<int, Kind>, v: Verified)
    requires Lists(kinds, v) && forall pid :: pid in Related(kinds) ==> pid > 1
    ensures SetOf(All(v)) == Related(kinds)
  {
    ListsDistinct(kinds, v);
    SortKeeps(v.current + v.legacy);
    assert forall pid :: pid in All(v) <==> pid in v.current + v.legacy;
    assert forall pid :: pid in SetOf(All(v)) <==> pid in Related(kinds);
  }

  /** Once all but the kept bridge are stopped, it is the only one, or there is none. */
  lemma PlanCarriedOut(c: Config, m: Session, before: map<int, Process>, after: World, v: Verified, ready: bool)
    requires Configured(c) && Canonical(c.stateDir, m) && Sound(after) && NoNewBridges(c, m.id, before, after.processes)
    requires Lists(Kinds(c, m, before), v)
    requires forall pid :: pid in Stops(v, m.pid, ready) ==> pid !in Bridges(c, m, after.processes)
    ensures var keep := Keep(v, m.pid, ready);
            if keep == 0 then Bridges(c, m, after.processes) == {} else OnlyBridge(c, m, after.processes, keep)
  {
    hide Canonical;
    PlanStopsOthers(c, m, before, v, ready);
    BridgesWane(c, m, before, after.processes, after.starts);
  }

  lemma BridgesAboveInit(c: Config, m: Session, processes: map<int, Process>)
    ensures Bridges(c, m, processes) == Related(Kinds(c, m, processes))
    ensures forall pid :: pid in Related(Kinds(c, m, processes)) ==> pid > 1
  {
  }

  lemma AllStopped(c: Config, m: Session, before: World, after: World, v: Verified)
    requires Configured(c) && Placed(c, m) && Sound(after) && NoNewBridges(c, m.id, before.processes, after.processes)
    requires Lists(Kinds(c, m, before.processes), v)
    requires forall pid :: pid in All(v) ==> pid !in Bridges(c, m, after.processes)
    ensures Bridges(c, m, after.processes) == {}
  {
    hide KindIn, Canonical;
    BridgesAboveInit(c, m, before.processes);
    AllListed(Kinds(c, m, before.processes), v);
    BridgesWane(c, m, before.processes, after.processes, after.starts);
    assert forall pid :: pid in SetOf(All(v)) ==> pid in All(v);
    assert Bridges(c, m, after.processes) <= SetOf(All(v));
  }

  /** Stopping all that is listed is stopping all that is seen. */
  lemma SeenStopped(c: Config, m: Session, w: World, v: Verified)
    requires Lists(Kinds(c, m, Seen(w, m)), v)
    ensures SetOf(All(v)) == SeenBridges(c, m, w)
    ensures Stopped(c, m, w, All(v)) == Cleared(c, m, w) && forall pid :: pid in All(v) ==> Verifiable(w, pid)
  {
    hide KindIn;
    BridgesAboveInit(c, m, Seen(w, m));
    AllListed(Kinds(c, m, Seen(w, m)), v);
    SeenAre(c, m, w);
    assert forall pid :: pid in All(v) <==> pid in SetOf(All(v));
    assert SetOf(All(v)) * VerifiableBridges(c, m, w) == SeenBridges(c, m, w);
  }

  lemma SeenRetired(c: Config, m: Session, w: World, stop: seq<int>, keep: int)
    requires forall pid :: pid in stop <==> pid in SeenBridges(c, m, w) && pid != keep
    ensures Stopped(c, m, w, stop) == w.(processes := w.processes - (SeenBridges(c, m, w) - {keep}))
    ensures forall pid :: pid in stop ==> Verifiable(w, pid)
  {
    hide KindIn;
    SeenAre(c, m, w);
    assert SetOf(stop) * VerifiableBridges(c, m, w) == SeenBridges(c, m, w) - {keep};
  }

  /** Starting a bridge where there is no other leaves it the only one. */
  lemma StartedOnly(c: Config, m: Session, before: map<int, Process>, base: map<int, Process>, pid: int, p: Process,
                    launched: map<int, Process>, now: map<int, Process>, starts: nat)
    requires Configured(c) && Canonical(c.stateDir, m) && pid > 1 && IsLaunched(c, m, p.argv)
    requires ProcessesOk(base, starts) && ProcessesOk(now, starts) && Bridges(c, m, before) == {}
    requires NoNewBridges(c, m.id, before, base) && NoNewBridges(c, m.id, base[pid := p], launched) && NoNewBridges(c, m.id, launched, now)
    ensures OnlyBridge(c, m, now, pid)
  {
    NoNewBridgesTransitive(c, m.id, base[pid := p], launched, now);
    BridgesWane(c, m, before, base, starts);
    BridgesAfterStart(c, m, base, pid, p, now, starts);
  }

  lemma LaterProcesses(processes: map<int, Process>, starts: nat, later: nat)
    requires ProcessesOk(processes, starts) && starts <= later
    ensures ProcessesOk(processes, later)
  {
  }

  /** Registering a bridge's PID does not change what is recognised as a bridge. */
  lemma PidRegistered(c: Config, m: Session, processes: map<int, Process>, starts: nat, pid: int)
    requires Configured(c) && Canonical(c.stateDir, m) && pid > 1 && ProcessesOk(processes, starts) && OnlyBridge(c, m, processes, pid)
    ensures Canonical(c.stateDir, m.(pid := pid)) && OnlyBridge(c, m.(pid := pid), processes, pid)
    ensures Bridges(c, m.(pid := pid), processes) == Bridges(c, m, processes)
  {
    var m' := m.(pid := pid);
    forall q | q in processes
      ensures (KindIn(c, m', q, processes[q]) != Unrelated) == (KindIn(c, m, q, processes[q]) != Unrelated)
      ensures KindIn(c, m, q, processes[q]) == Current ==> KindIn(c, m', q, processes[q]) == Current
    {
      assert KindIn(c, m, q, processes[q]) != Unrelated ==> q in Bridges(c, m, processes);
      SameClassification(c, m, pid, q, processes[q]);
    }
  }

  lemma SameClassification(c: Config, m: Session, pid: int, q: int, p: Process)
    requires Configured(c) && Canonical(c.stateDir, m) && pid > 1 && NulFree(p.argv)
    requires KindIn(c, m, q, p) != Unrelated ==> q == pid
    requires q == pid && Serves(c, m.id, p) ==> KindIn(c, m, q, p) == Current
    ensures (KindIn(c, m.(pid := pid), q, p) != Unrelated) == (KindIn(c, m, q, p) != Unrelated)
    ensures KindIn(c, m, q, p) == Current ==> KindIn(c, m.(pid := pid), q, p) == Current
  {
    assert Classify(p.argv, Base(c.ttyd), c.tmux, m) == Classify(p.argv, Base(c.ttyd), c.tmux, m.(pid := pid));
    if KindIn(c, m.(pid := pid), q, p) != Unrelated { BridgesServe(c, m.(pid := pid), q, p); }
  }

  // ----- Ensuring twice

  /** The process that answers on the socket is stopped because another one is kept. */
  ghost predicate CutsOff(c: Config, m: Session, w: World, keep: int)
    requires m.id in w.listeners
  {
    w.listeners[m.id].pid in SeenBridges(c, m, w) - {keep}
  }

  lemma LoneCurrent(c: Config, m: Session, processes: map<int, Process>, starts: nat, pid: int)
    requires Configured(c) && Canonical(c.stateDir, m) && pid > 1 && ProcessesOk(processes, starts)
    requires OnlyBridge(c, m, processes, pid) && pid in processes && KindIn(c, m, pid, processes[pid]) == Current
    ensures var m' := m.(pid := pid); Canonical(c.stateDir, m') && Bridges(c, m', processes) == {pid} == Currents(c, m', processes)
  {
    PidRegistered(c, m, processes, starts, pid);
    var m' := m.(pid := pid);
    assert pid in Bridges(c, m, processes);
    SameClassification(c, m, pid, pid, processes[pid]);
    assert pid in Currents(c, m', processes) && Currents(c, m', processes) <= Bridges(c, m', processes);
  }

  /** After ensuring, the bridge returned is the only one seen, and the socket answers exactly
      unless the process that answered before was among those stopped. */
  lemma FirstPass(c: Config, m: Session, w: World, keep: int, r: Result<int>, w': World)
    requires Configured(c) && Canonical(c.stateDir, m) && ProcessesOk(w.processes, w.starts)
    requires Tended(c, m, w, keep, r, w') && r.Ok?
    ensures r.value > 1 && r.value in w'.processes && ProcessesOk(w'.processes, w'.starts)
    ensures var m' := m.(pid := r.value);
            Canonical(c.stateDir, m') && SeenBridges(c, m', w') == {r.value} == Currents(c, m', Seen(w', m'))
    ensures keep != 0 ==> m.id in w.listeners
    ensures Ready(w', m.id) <==> keep == 0 || !CutsOff(c, m, w, keep)
  {
    if keep != 0 {
      FirstPassKeeps(c, m, w, keep, w');
    } else {
      var argv :| IsLaunched(c, m, argv) && w' == Begun(m, Cleared(c, m, w), r.value, argv);
      FirstPassStarts(c, m, w, r.value, argv, w');
    }
  }

  /** Of the processes seen afterwards only the returned one was not stopped. */
  lemma SeenLater(c: Config, m: Session, w: World, w': World, pid: int)
    requires w'.sight == w.sight && Verifiable(w', pid)
    requires forall q :: q in w'.processes && q != pid ==> q in w.processes && q !in SeenBridges(c, m, w) && w'.processes[q] == w.processes[q]
    requires KindIn(c, m, pid, w'.processes[pid]) == Current
    ensures var m' := m.(pid := pid); pid in Seen(w', m') && OnlyBridge(c, m, Seen(w', m'), pid)
  {
    hide KindIn;
    var m' := m.(pid := pid);
    SeenAre(c, m, w);
    SeenAre(c, m, w');
    assert forall q :: q in Seen(w', m') && q != pid ==> q in Seen(w, m) && q !in SeenBridges(c, m, w);
  }

  lemma FirstPassKeeps(c: Config, m: Session, w: World, keep: int, w': World)
    requires Configured(c) && Canonical(c.stateDir, m) && ProcessesOk(w.processes, w.starts)
    requires Chosen(c, m, w, keep) && keep != 0 && w' == w.(processes := w.processes - (SeenBridges(c, m, w) - {keep}))
    ensures keep > 1 && keep in w'.processes && ProcessesOk(w'.processes, w'.starts) && m.id in w.listeners
    ensures var m' := m.(pid := keep);
            Canonical(c.stateDir, m') && SeenBridges(c, m', w') == {keep} == Currents(c, m', Seen(w', m'))
    ensures Ready(w', m.id) <==> !CutsOff(c, m, w, keep)
  {
    hide Canonical;
    assert keep in Currents(c, m, Seen(w, m)) && keep in SeenBridges(c, m, w);
    SeenLater(c, m, w, w', keep);
    LoneCurrent(c, m, Seen(w', m.(pid := keep)), w'.starts, keep);
  }

  lemma FirstPassStarts(c: Config, m: Session, w: World, pid: int, argv: Argv, w': World)
    requires Configured(c) && Canonical(c.stateDir, m) && ProcessesOk(w.processes, w.starts) && pid > 1 && w.sight.ttyd.Some?
    requires IsLaunched(c, m, argv) && Verifiable(w', pid) && w' == Begun(m, Cleared(c, m, w), pid, argv)
    ensures pid in w'.processes && ProcessesOk(w'.processes, w'.starts) && Ready(w', m.id)
    ensures var m' := m.(pid := pid);
            Canonical(c.stateDir, m') && SeenBridges(c, m', w') == {pid} == Currents(c, m', Seen(w', m'))
  {
    hide IsLaunched, Canonical, KindIn;
    LaunchedNulFree(c, m, argv);
    LaunchedIsCurrent(c, m, argv, pid, w.starts, w.sight.ttyd.value);
    SeenLater(c, m, w, w', pid);
    LoneCurrent(c, m, Seen(w', m.(pid := pid)), w'.starts, pid);
  }

  /** Ensuring again right after keeps the very same bridge and changes nothing exactly when
      the socket still answers; otherwise the bridge is replaced. */
  lemma SecondPass(c: Config, m: Session, w: World, keep: int, r: Result<int>, w': World, keep2: int, r2: Result<int>, w2: World)
    requires Configured(c) && Canonical(c.stateDir, m) && ProcessesOk(w.processes, w.starts)
    requires Tended(c, m, w, keep, r, w') && r.Ok? && Tended(c, m.(pid := r.value), w', keep2, r2, w2)
    ensures r.value in w'.processes
    ensures Ready(w', m.id) ==> keep2 == r.value && r2 == r && w2 == w'
    ensures !Ready(w', m.id) && r2.Ok? ==> r2.value in w2.processes && w2.processes[r2.value] != w'.processes[r.value]
  {
    hide KindIn, Canonical, IsLaunched;
    FirstPass(c, m, w, keep, r, w');
    var m' := m.(pid := r.value);
    if Ready(w', m.id) {
      assert SeenBridges(c, m', w') - {keep2} == {};
      assert w'.processes - {} == w'.processes;
    } else if r2.Ok? {
      var argv :| IsLaunched(c, m', argv) && w2 == Begun(m', Cleared(c, m', w'), r2.value, argv);
    }
  }

  /** Two current bridges, one registered and the other on the socket. */
  ghost function TwoBridges(m: Session, argv: Argv, q: int): World {
    World(map[m.id := Record(m)], map[m.id := 0], map[m.pid := Process(0, 0, argv), q := Process(1, 0, argv)],
          Sight(Some(0), true, {}), map[m.id := Listener(q, 1)], {SocketFile(m.id)}, 2, 1, [], [])
  }

  /** Then the registered one is kept, the other stopped, and the socket no longer answers; so
      ensuring again replaces the bridge although nothing changed outside. */
  lemma RegisteredWithoutSocket(c: Config, m: Session, argv: Argv, q: int, keep: int, r: Result<int>, w': World)
    requires Configured(c) && Canonical(c.stateDir, m) && IsLaunched(c, m, argv) && m.pid > 1 && q > 1 && q != m.pid
    requires Tended(c, m, TwoBridges(m, argv, q), keep, r, w')
    ensures Sound(TwoBridges(m, argv, q)) && Ready(TwoBridges(m, argv, q), m.id)
    ensures keep == m.pid && r == Ok(m.pid) && !Ready(w', m.id)
  {
    hide IsLaunched, Canonical, KindIn;
    var w := TwoBridges(m, argv, q);
    LaunchedNulFree(c, m, argv);
    LaunchedIsCurrent(c, m, argv, m.pid, 0, 0);
    LaunchedIsCurrent(c, m, argv, q, 1, 0);
    assert w.processes[m.pid] == Process(0, 0, argv) && w.processes[q] == Process(1, 0, argv);
    assert m.pid in Currents(c, m, Seen(w, m)) && q in SeenBridges(c, m, w);
  }

  lemma Listening(c: Config, id: string, w: World, pid: int, w': World)
    requires pid in w.processes && Keeps(c, id, w, w') && Wanes(c, id, Apply(c, id, w, Listen(pid)), w')
    ensures Holds(c, id, w, w') && NoNewBridges(c, id, w.processes, w'.processes)
  {
    hide Serves, GoodOrLogged, Sound;
  }

  class ProcessBridge {
    const host: Host

    constructor (host: Host)
      ensures this.host == host
    {
      this.host := host;
    }

    /** Finds the bridges of a session that can be seen: with no ttyd on the path none, without
        a listing of /proc only the registered process. */
    method VerifiedProcesses(m: Session) returns (v: Verified)
      requires host.Valid() && Placed(host.c, m)
      requires host.holder == Some(m.id)
      modifies host`w, host`t, host`stage, host`path, host`turns
      ensures host.Valid() && Wanes(host.c, m.id, old(host.w), host.w) && Later(old(host.t), host.t)
      ensures host.t == old(host.t).(disturbed := host.t.disturbed, blind := old(host.t).blind + Times(Blind(host.c, m, old(host.w))))
      ensures Quiet(old(host.t), host.t) ==> host.w == old(host.w)
      ensures host.stage ==
        if Recorded(host.c, m, old(host.w).records) then
          old(host.stage).(scanned := true, left := SeenBridges(host.c, m, old(host.w)), blind := Blind(host.c, m, old(host.w)))
        else old(host.stage)
      ensures Lists(Kinds(host.c, m, Seen(old(host.w), m)), v) && Ordered(v.current)
    {
      hide KindIn, Canonical, Traced;
      var seen: map<int, Process> := map[];
      if host.w.sight.ttyd.Some? {
        if !host.w.sight.procListed {
          if Verifiable(host.w, m.pid) {
            seen := map[m.pid := host.w.processes[m.pid]];
          }
        } else {
          seen := host.w.processes - set pid | pid in host.w.processes && !Verifiable(host.w, pid);
        }
      }
      assert seen == Seen(host.w, m);
      v := ListBridges(Kinds(host.c, m, seen));
      host.Missed(Blind(host.c, m, host.w));
      if Recorded(host.c, m, host.w.records) {
        host.Look(m.id, Scan(m.id), host.stage.(scanned := true, left := SeenBridges(host.c, m, host.w), blind := Blind(host.c, m, host.w)));
      }
      host.Interfere(m.id);
    }

    /** Notes that a process is not a bridge, or cannot be recognised as one, any more. */
    method Handle(m: Session, pid: int, still: bool)
      requires host.Valid() && host.holder == Some(m.id)
      requires still == (pid in Bridges(host.c, m, host.w.processes)) && (still ==> !Verifiable(host.w, pid))
      modifies host`stage, host`path, host`turns
      ensures host.Valid()
      ensures host.stage ==
        if old(host.stage).scanned && Recorded(host.c, m, host.w.records) then
          old(host.stage).(left := old(host.stage).left - {pid}, blind := old(host.stage).blind || still)
        else old(host.stage)
    {
      hide Traced, Latest, Sound, Recorded, Bridges;
      if host.stage.scanned && Recorded(host.c, m, host.w.records) {
        PassIsStep(host.c, m, host.w, host.stage, pid, still);
        host.Look(m.id, Pass(m.id, pid), host.stage.(left := host.stage.left - {pid}, blind := host.stage.blind || still));
      }
    }

    /** Stops a process if it can be recognised as a bridge of the session. */
    method StopVerifiedPID(m: Session, pid: int) returns (ok: bool)
      requires host.Valid() && Placed(host.c, m)
      requires host.holder == Some(m.id)
      modifies host`w, host`t, host`stage, host`path, host`turns
      ensures host.Valid() && Wanes(host.c, m.id, old(host.w), host.w)
      ensures Later(old(host.t), host.t) && host.t.writes == old(host.t).writes && (ok <==> host.t.failures == old(host.t).failures)
      ensures host.t.blind == old(host.t).blind
                + Times(pid in Bridges(host.c, m, old(host.w).processes) && !Verifiable(old(host.w), pid))
      ensures host.stage ==
        if ok && old(host.stage).scanned && Recorded(host.c, m, old(host.w).records) then
          old(host.stage).(left := old(host.stage).left - {pid},
                           blind := old(host.stage).blind || host.t.blind > old(host.t).blind)
        else old(host.stage)
      ensures ok && host.t.blind == old(host.t).blind ==> pid !in Bridges(host.c, m, host.w.processes)
      ensures Quiet(old(host.t), host.t) ==>
        host.w == old(host.w).(processes := old(host.w).processes - ({pid} * VerifiableBridges(host.c, m, old(host.w))))
    {
      hide Canonical, KindIn, Serves, Traced, GoodOrLogged, OwnEbbs, NoKill, Recorded;
      var failed := host.Fails();
      var still := pid in Bridges(host.c, m, host.w.processes);
      if !still || !Verifiable(host.w, pid) {
        host.Missed(still);
        if !failed {
          Handle(m, pid, still);
        }
        host.Interfere(m.id);
        LeftByOthers(host.c, m, old(host.w), host.w);
        assert {pid} * VerifiableBridges(host.c, m, old(host.w)) == {};
        return !failed;
      }
      BridgesServe(host.c, m, pid, host.w.processes[pid]);
      if failed {
        if * {
          host.Destroy(m.id, EndProcess(pid));
        } else {
          host.Interfere(m.id);
        }
        return false;
      }
      ghost var gone := Apply(host.c, m.id, host.w, EndProcess(pid));
      assert {pid} * VerifiableBridges(host.c, m, old(host.w)) == {pid};
      host.Destroy(m.id, EndProcess(pid));
      LeftByOthers(host.c, m, gone, host.w);
      LeftByOthers(host.c, m, old(host.w), host.w);
      Handle(m, pid, false);
      return true;
    }

    /** Stops the listed processes in turn, up to the first that cannot be stopped. */
    method StopUntilError(m: Session, stop: seq<int>) returns (ok: bool)
      requires host.Valid() && Canonical(host.c.stateDir, m)
      requires host.holder == Some(m.id)
      modifies host`w, host`t, host`stage, host`path, host`turns
      ensures host.Valid() && Wanes(host.c, m.id, old(host.w), host.w)
      ensures Later(old(host.t), host.t) && host.t.writes == old(host.t).writes && (ok <==> host.t.failures == old(host.t).failures)
      ensures ok && host.t.blind == old(host.t).blind ==> forall pid :: pid in stop ==> pid !in Bridges(host.c, m, host.w.processes)
      ensures Quiet(old(host.t), host.t) ==> host.w == Stopped(host.c, m, old(host.w), stop)
      ensures Quiet(old(host.t), host.t) && (forall pid :: pid in stop ==> Verifiable(old(host.w), pid)) ==>
        host.t.blind == old(host.t).blind
    {
      hide Traced, Latest, KindIn, Canonical, Kinds, Related, VerifiableBridges, Wanes, Sound, Recorded;
      WanesReflexive(host.c, m.id, host.w);
      for i := 0 to |stop|
        invariant host.Valid() && Wanes(host.c, m.id, old(host.w), host.w)
        invariant Recorded(host.c, m, host.w.records) == Recorded(host.c, m, old(host.w).records)
        invariant Later(old(host.t), host.t) && host.t.writes == old(host.t).writes && host.t.failures == old(host.t).failures
        invariant host.t.blind == old(host.t).blind ==> forall pid :: pid in stop[..i] ==> pid !in Bridges(host.c, m, host.w.processes)
        invariant Quiet(old(host.t), host.t) ==> host.w == Stopped(host.c, m, old(host.w), stop[..i])
        invariant Quiet(old(host.t), host.t) && (forall pid :: pid in stop ==> Verifiable(old(host.w), pid)) ==>
          host.t.blind == old(host.t).blind
      {
        if Quiet(old(host.t), host.t) && Verifiable(old(host.w), stop[i]) {
          StoppedVerifiable(host.c, m, old(host.w), stop[..i], stop[i]);
        }
        ghost var before := host.w;
        ok := StopVerifiedPID(m, stop[i]);
        WanesTransitive(host.c, m.id, old(host.w), before, host.w);
        if !ok {
          return false;
        }
        LeftByOthers(host.c, m, before, host.w);
        assert stop[..i + 1] == stop[..i] + [stop[i]];
        if Quiet(old(host.t), host.t) {
          StoppedNext(host.c, m, old(host.w), stop[..i], stop[i]);
        }
      }
      assert stop[..|stop|] == stop;
      return true;
    }

    /** Stops every bridge of the session that is seen, going on past those that cannot be
        stopped. */
    method Stop(m: Session) returns (ok: bool)
      requires host.Valid() && Placed(host.c, m)
      requires host.holder == Some(m.id)
      modifies host`w, host`t, host`stage, host`path, host`turns
      ensures host.Valid() && Wanes(host.c, m.id, old(host.w), host.w)
      ensures Later(old(host.t), host.t) && host.t.writes == old(host.t).writes && (ok <==> host.t.failures == old(host.t).failures)
      ensures ok && host.t.blind == old(host.t).blind ==> Bridges(host.c, m, host.w.processes) == {}
      ensures Quiet(old(host.t), host.t) ==>
        && host.w == Cleared(host.c, m, old(host.w))
        && host.t.blind == old(host.t).blind + Times(Blind(host.c, m, old(host.w)))
      ensures host.stage.dead == old(host.stage).dead && host.stage.deleted == old(host.stage).deleted
      ensures Recorded(host.c, m, old(host.w).records) ==>
        && host.stage.scanned && (ok ==> host.stage.left == {})
        && (host.stage.blind ==> host.t.blind > old(host.t).blind)
        && (Quiet(old(host.t), host.t) ==> host.stage.blind == Blind(host.c, m, old(host.w)))
    {
      hide KindIn, Canonical, Traced, Blind, Bridges;
      var v := VerifiedProcesses(m);
      ghost var scanned, tally := host.w, host.t;
      ok := StopEach(m, All(v));
      WanesTransitive(host.c, m.id, old(host.w), scanned, host.w);
      SeenStopped(host.c, m, old(host.w), v);
      if ok && host.t.blind == old(host.t).blind {
        NotBlindLists(host.c, m, old(host.w), v);
        AllStopped(host.c, m, old(host.w), host.w, v);
      }
    }

    method StopEach(m: Session, pids: seq<int>) returns (ok: bool)
      requires host.Valid() && Placed(host.c, m)
      requires host.holder == Some(m.id)
      modifies host`w, host`t, host`stage, host`path, host`turns
      ensures host.Valid() && Wanes(host.c, m.id, old(host.w), host.w)
      ensures Later(old(host.t), host.t) && host.t.writes == old(host.t).writes && (ok <==> host.t.failures == old(host.t).failures)
      ensures ok && host.t.blind == old(host.t).blind ==> forall pid :: pid in pids ==> pid !in Bridges(host.c, m, host.w.processes)
      ensures Quiet(old(host.t), host.t) ==> host.w == Stopped(host.c, m, old(host.w), pids)
      ensures Quiet(old(host.t), host.t) && (forall pid :: pid in pids ==> Verifiable(old(host.w), pid)) ==>
        host.t.blind == old(host.t).blind
      ensures Handled(old(host.stage), host.stage, Recorded(host.c, m, old(host.w).records), pids, ok,
                      host.t.blind - old(host.t).blind)
    {
      hide Traced, Latest, Wanes, Sound, Recorded, Handled, KindIn, Canonical, Kinds, Related, VerifiableBridges;
      ok := true;
      WanesReflexive(host.c, m.id, host.w);
      NoneHandled(host.stage, Recorded(host.c, m, host.w.records));
      assert pids[..0] == [];
      for i := 0 to |pids|
        invariant host.Valid() && Wanes(host.c, m.id, old(host.w), host.w)
        invariant Recorded(host.c, m, host.w.records) == Recorded(host.c, m, old(host.w).records)
        invariant Later(old(host.t), host.t) && host.t.writes == old(host.t).writes && (ok <==> host.t.failures == old(host.t).failures)
        invariant Handled(old(host.stage), host.stage, Recorded(host.c, m, old(host.w).records), pids[..i], ok,
                          host.t.blind - old(host.t).blind)
        invariant ok && host.t.blind == old(host.t).blind ==> forall pid :: pid in pids[..i] ==> pid !in Bridges(host.c, m, host.w.processes)
        invariant Quiet(old(host.t), host.t) ==> host.w == Stopped(host.c, m, old(host.w), pids[..i])
        invariant Quiet(old(host.t), host.t) && (forall pid :: pid in pids ==> Verifiable(old(host.w), pid)) ==>
          host.t.blind == old(host.t).blind
      {
        if Quiet(old(host.t), host.t) && Verifiable(old(host.w), pids[i]) {
          StoppedVerifiable(host.c, m, old(host.w), pids[..i], pids[i]);
        }
        ghost var before, stage, tally, was := host.w, host.stage, host.t, ok;
        var stopped := StopVerifiedPID(m, pids[i]);
        ok := ok && stopped;
        WanesTransitive(host.c, m.id, old(host.w), before, host.w);
        LeftByOthers(host.c, m, before, host.w);
        assert pids[..i + 1] == pids[..i] + [pids[i]];
        HandledMore(old(host.stage), stage, host.stage, Recorded(host.c, m, old(host.w).records), pids[..i], was,
                    tally.blind - old(host.t).blind, pids[i], stopped, host.t.blind - old(host.t).blind);
        if Quiet(old(host.t), host.t) {
          StoppedNext(host.c, m, old(host.w), pids[..i], pids[i]);
        }
      }
      assert pids[..|pids|] == pids;
    }

    /** Starts a process for the session and waits until its socket answers. */
    method Start(m: Session) returns (r: Result<int>, ghost argv: Argv)
      requires host.Valid() && Canonical(host.c.stateDir, m) && |m.socket| <= MAX_SOCKET_PATH
      requires host.holder == Some(m.id)
      modifies host`w, host`t, host`stage, host`path, host`turns
      ensures host.Valid() && Holds(host.c, m.id, old(host.w), host.w) && Later(old(host.t), host.t) && host.t.writes == old(host.t).writes
      ensures r.Err? ==> r.kind == Dependency || r.kind == BridgeIncomplete
      ensures r.Ok? <==> host.t.failures == old(host.t).failures
      ensures r.Ok? ==> r.value > 1 && (Bridges(host.c, m, old(host.w).processes) == {} ==> OnlyBridge(host.c, m, host.w.processes, r.value))
      ensures r.Err? && FailedOnce(old(host.t), host.t) ==> Bridges(host.c, m, host.w.processes) <= Bridges(host.c, m, old(host.w).processes)
      ensures Quiet(old(host.t), host.t) ==>
        && r.Ok? && r.value !in old(host.w).processes && Verifiable(host.w, r.value)
        && IsLaunched(host.c, m, argv) && old(host.w).sight.ttyd.Some?
        && host.w == Begun(m, old(host.w), r.value, argv) && host.t.blind == old(host.t).blind
        && LogFile(m.id) in host.w.files && Ready(host.w, m.id)
    {
      hide Traced, Latest, IsLaunched, KindIn, Canonical;
      ghost var p, base;
      r, p, base := Launch(m);
      argv := p.argv;
      if r.Err? {
        BridgesWane(host.c, m, old(host.w).processes, host.w.processes, host.w.starts);
        return;
      }
      var pid := r.value;
      ghost var launched := host.w;
      r := AwaitSocket(m, pid);
      HoldsTransitive(host.c, m.id, old(host.w), launched, host.w);
      if r.Err? {
        LaterProcesses(base, launched.starts, host.w.starts);
        StartUndone(host.c, m, old(host.w).processes, base, pid, p, launched.processes, host.w.processes, host.w.starts);
      }
      if r.Ok? && Bridges(host.c, m, old(host.w).processes) == {} {
        LaterProcesses(base, launched.starts, host.w.starts);
        StartedOnly(host.c, m, old(host.w).processes, base, pid, p, launched.processes, host.w.processes, host.w.starts);
      }
    }

    method LaunchCommand(m: Session) returns (command: Argv)
      requires host.Valid() && Canonical(host.c.stateDir, m)
      ensures IsLaunched(host.c, m, command) && NulFree(command)
    {
      command := [host.c.ttyd] + BridgeArguments(m, Itoa(host.c.scrollback), host.c.tmux);
      if * {
        command := [host.c.ttyd] + SplitScrollback(BridgeArguments(m, Itoa(host.c.scrollback), host.c.tmux), Itoa(host.c.scrollback));
      }
      LaunchedNulFree(host.c, m, command);
    }

    /** `base` are the processes right before the new one began. */
    method Launch(m: Session) returns (r: Result<int>, ghost p: Process, ghost base: map<int, Process>)
      requires host.Valid() && Canonical(host.c.stateDir, m)
      requires host.holder == Some(m.id)
      modifies host`w, host`t, host`stage, host`path, host`turns
      ensures host.Valid() && Holds(host.c, m.id, old(host.w), host.w) && Later(old(host.t), host.t) && host.t.writes == old(host.t).writes
      ensures r.Err? ==> r.kind == Dependency || r.kind == BridgeIncomplete
      ensures r.Ok? <==> host.t.failures == old(host.t).failures
      ensures r.Err? ==> NoNewBridges(host.c, m.id, old(host.w).processes, host.w.processes)
      ensures r.Ok? ==>
        && r.value > 1 && r.value !in base && IsLaunched(host.c, m, p.argv)
        && ProcessesOk(base, host.w.starts)
        && NoNewBridges(host.c, m.id, old(host.w).processes, base)
        && NoNewBridges(host.c, m.id, base[r.value := p], host.w.processes)
      ensures Quiet(old(host.t), host.t) ==>
        old(host.w).sight.ttyd == Some(p.exe) &&
        base == old(host.w).processes && p.started == old(host.w).starts && host.t.blind == old(host.t).blind &&
        host.w == old(host.w).(processes := base[r.value := p], files := old(host.w).files + {LogFile(m.id)}, starts := old(host.w).starts + 1)
    {
      hide Traced, Latest, KindIn, Serves, Canonical, GoodOrLogged, NoNewFiles, NoNewListener, IsLaunched, OnlyWrote, Asked;
      ExtendsReflexive(host.c, host.w);
      p, base := Process(0, 0, []), map[];
      var failed := host.Fails();
      if failed {
        r := Err(Dependency);
        return;
      }
      host.Act(m.id, CreateLog);
      ghost var logged := host.w;
      base := host.w.processes;
      failed := host.Fails();
      var pid: int := *;
      if failed || host.w.sight.ttyd.None? || pid <= 1 || pid in host.w.processes {
        if !failed {
          host.t := host.t.(failures := host.t.failures + 1);
        }
        r := Err(BridgeIncomplete);
        return;
      }
      var command := LaunchCommand(m);
      p := Process(host.w.starts, host.w.sight.ttyd.value, command);
      host.Act(m.id, BeginProcess(pid, m, command));
      HoldsTransitive(host.c, m.id, old(host.w), logged, host.w);
      r := Ok(pid);
    }

    method AwaitSocket(m: Session, pid: int) returns (r: Result<int>)
      requires host.Valid() && Canonical(host.c.stateDir, m)
      requires host.holder == Some(m.id)
      modifies host`w, host`t, host`stage, host`path, host`turns
      ensures host.Valid() && Holds(host.c, m.id, old(host.w), host.w) && Later(old(host.t), host.t) && host.t.writes == old(host.t).writes
      ensures r.Err? ==> r.kind == BridgeIncomplete
      ensures r.Ok? <==> host.t.failures == old(host.t).failures
      ensures r.Ok? ==> r.value == pid
      ensures r.Err? && FailedOnce(old(host.t), host.t) ==> pid !in Bridges(host.c, m, host.w.processes)
      ensures NoNewBridges(host.c, m.id, old(host.w).processes, host.w.processes)
      ensures Quiet(old(host.t), host.t) ==>
        && pid in old(host.w).processes && Verifiable(host.w, pid) && host.t.blind == old(host.t).blind
        && host.w == Apply(host.c, m.id, old(host.w), Listen(pid))
    {
      hide Traced, Latest, Serves, Canonical, GoodOrLogged, OwnEbbs, KindIn, Sound;
      var failed := host.Fails();
      if failed || pid !in host.w.processes {
        if !failed {
          host.t := host.t.(failures := host.t.failures + 1);
        }
        var _ := StopVerifiedPID(m, pid);
        WanesLeaves(host.c, m.id, old(host.w), host.w);
        return Err(BridgeIncomplete);
      }
      host.Act(m.id, Listen(pid));
      ghost var listening := host.w;
      Listening(host.c, m.id, old(host.w), pid, listening);
      failed := host.Fails();
      if failed || pid !in host.w.processes || !Verifiable(host.w, pid) ||
         KindIn(host.c, m, pid, host.w.processes[pid]) != Current || !Ready(host.w, m.id) {
        if !failed {
          host.t := host.t.(failures := host.t.failures + 1);
        }
        var _ := StopVerifiedPID(m, pid);
        WanesLeaves(host.c, m.id, listening, host.w);
        HoldsTransitive(host.c, m.id, old(host.w), listening, host.w);
        return Err(BridgeIncomplete);
      }
      return Ok(pid);
    }

    /** Finds out which bridge stays, if any, and stops all others. */
    method Retire(m: Session) returns (ok: bool, kept: int)
      requires host.Valid() && Canonical(host.c.stateDir, m)
      requires host.holder == Some(m.id)
      modifies host`w, host`t, host`stage, host`path, host`turns
      ensures host.Valid() && Wanes(host.c, m.id, old(host.w), host.w) && Later(old(host.t), host.t) && host.t.writes == old(host.t).writes
      ensures (ok <==> host.t.failures == old(host.t).failures) && (kept == 0 || kept > 1)
      ensures ok && host.t.blind == old(host.t).blind ==>
        if kept == 0 then Bridges(host.c, m, host.w.processes) == {} else OnlyBridge(host.c, m, host.w.processes, kept)
      ensures Quiet(old(host.t), host.t) ==>
        && Chosen(host.c, m, old(host.w), kept)
        && host.w == old(host.w).(processes := old(host.w).processes - (SeenBridges(host.c, m, old(host.w)) - {kept}))
        && host.t.blind == old(host.t).blind + Times(Blind(host.c, m, old(host.w)))
    {
      hide Traced, Latest, KindIn, Canonical;
      var v := VerifiedProcesses(m);
      ghost var scanned := host.w;
      var ready := SocketReady(m.id);
      ghost var dialled := host.w;
      WanesTransitive(host.c, m.id, old(host.w), scanned, dialled);
      var stop;
      kept, stop := ReconcilePlan(v, m.pid, ready);
      PlanStopsOthers(host.c, m, Seen(old(host.w), m), v, ready);
      SeenRetired(host.c, m, old(host.w), stop, kept);
      ok := StopUntilError(m, stop);
      WanesTransitive(host.c, m.id, old(host.w), dialled, host.w);
      if ok && host.t.blind == old(host.t).blind {
        NotBlindLists(host.c, m, old(host.w), v);
        PlanCarriedOut(host.c, m, old(host.w).processes, host.w, v, ready);
      }
      if Quiet(old(host.t), host.t) {
        KeepIsChosen(host.c, m, old(host.w), v);
      }
    }

    method SocketReady(id: string) returns (ready: bool)
      requires host.Valid()
      requires host.holder == Some(id)
      modifies host`w, host`t, host`stage, host`path, host`turns
      ensures host.Valid() && Wanes(host.c, id, old(host.w), host.w)
      ensures host.t == old(host.t).(disturbed := host.t.disturbed) && old(host.t).disturbed <= host.t.disturbed
      ensures Quiet(old(host.t), host.t) ==> host.w == old(host.w)
      ensures ready == Ready(old(host.w), id)
    {
      hide Traced, Latest;
      ready := Ready(host.w, id);
      host.Interfere(id);
    }

    /** Keeps the registered or another current bridge that answers, or starts a new one; all
        others are stopped. */
    method Ensure(m: Session) returns (r: Result<int>, ghost keep: int)
      requires host.Valid() && Canonical(host.c.stateDir, m)
      requires host.holder == Some(m.id)
      modifies host`w, host`t, host`stage, host`path, host`turns
      ensures host.Valid() && Holds(host.c, m.id, old(host.w), host.w) && Later(old(host.t), host.t) && host.t.writes == old(host.t).writes
      ensures r.Ok? ==> r.value > 1 && host.t.failures == old(host.t).failures && host.t.reported == r.value
      ensures r.Err? ==> host.t.failures > old(host.t).failures || |m.socket| > MAX_SOCKET_PATH
      ensures r.Err? ==> r.kind == Dependency || r.kind == BridgeIncomplete
      ensures r.Ok? && host.t.blind == old(host.t).blind ==> OnlyBridge(host.c, m, host.w.processes, r.value)
      ensures r.Err? && FailedOnce(old(host.t), host.t) ==> Bridges(host.c, m, host.w.processes) <= Bridges(host.c, m, old(host.w).processes)
      ensures Quiet(old(host.t), host.t) ==>
        && Tended(host.c, m, old(host.w), keep, r, host.w)
        && host.t.blind == old(host.t).blind + Times(Blind(host.c, m, old(host.w)))
    {
      hide Traced, Latest, KindIn, Canonical;
      var ok, kept := Retire(m);
      keep := kept;
      LeftByOthers(host.c, m, old(host.w), host.w);
      if !ok {
        return Err(Dependency), keep;
      }
      if kept != 0 {
        var failed := host.Fails();
        if failed {
          return Err(BridgeIncomplete), keep;
        }
        host.t := host.t.(reported := kept);
        return Ok(kept), keep;
      }
      ghost var retired := host.w;
      BridgesAboveInit(host.c, m, Seen(old(host.w), m));
      assert SeenBridges(host.c, m, old(host.w)) - {0} == SeenBridges(host.c, m, old(host.w));
      r := Replace(m);
      HoldsTransitive(host.c, m.id, old(host.w), retired, host.w);
      if r.Ok? {
        host.t := host.t.(reported := r.value);
      }
    }

    method Replace(m: Session) returns (r: Result<int>)
      requires host.Valid() && Canonical(host.c.stateDir, m)
      requires host.holder == Some(m.id)
      modifies host`w, host`t, host`stage, host`path, host`turns
      ensures host.Valid() && Holds(host.c, m.id, old(host.w), host.w) && Later(old(host.t), host.t) && host.t.writes == old(host.t).writes
      ensures r.Ok? ==> r.value > 1 && host.t.failures == old(host.t).failures
      ensures r.Err? ==> host.t.failures > old(host.t).failures || |m.socket| > MAX_SOCKET_PATH
      ensures |m.socket| > MAX_SOCKET_PATH ==> r.Err?
      ensures Quiet(old(host.t), host.t) && |m.socket| > MAX_SOCKET_PATH ==> r == Err(BridgeIncomplete) && host.w == SocketGone(m, old(host.w))
      ensures r.Err? ==> r.kind == Dependency || r.kind == BridgeIncomplete
      ensures r.Ok? && Bridges(host.c, m, old(host.w).processes) == {} ==> OnlyBridge(host.c, m, host.w.processes, r.value)
      ensures r.Err? && FailedOnce(old(host.t), host.t) ==> Bridges(host.c, m, host.w.processes) <= Bridges(host.c, m, old(host.w).processes)
      ensures Quiet(old(host.t), host.t) ==>
        && host.w.records == old(host.w).records && host.w.tmux == old(host.w).tmux && host.w.sight == old(host.w).sight
        && host.t.blind == old(host.t).blind
      ensures Quiet(old(host.t), host.t) && |m.socket| <= MAX_SOCKET_PATH ==>
        r.Ok? && r.value !in old(host.w).processes && Verifiable(host.w, r.value) && old(host.w).sight.ttyd.Some? &&
        exists argv :: IsLaunched(host.c, m, argv) && host.w == Begun(m, old(host.w), r.value, argv)
    {
      hide Traced, Latest, KindIn, Canonical;
      var failed := host.Fails();
      if failed {
        return Err(Dependency);
      }
      host.Destroy(m.id, DeleteFile(SocketFile(m.id)));
      ghost var cleared := host.w;
      BridgesWane(host.c, m, old(host.w).processes, host.w.processes, host.w.starts);
      if |m.socket| > MAX_SOCKET_PATH {
        return Err(BridgeIncomplete);
      }
      ghost var argv;
      r, argv := Start(m);
      HoldsTransitive(host.c, m.id, old(host.w), cleared, host.w);
      if Quiet(old(host.t), host.t) { SocketReplaced(m, old(host.w), r.value, argv); }
    }
  }
}
