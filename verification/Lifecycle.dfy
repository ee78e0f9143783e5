/** The operations on managed sessions, each under the session's lock, with dependencies that
    may fail at every call and others acting in between. */
module Lifecycle {
  import opened Text
  import opened Registry
  import opened BridgeCommands
  import opened SessionWorld
  import opened SessionBridge

  datatype ReadResult = Found(managed: Session) | Missing | Invalid | Unreadable

  predicate StoredAs(records: map<string, Stored>, m: Session) { m.id in records && records[m.id] == Record(m) }

  /** The record as it is after an old one has been brought up to date. */
  predicate UpToDate(s: Session, m: Session) {
    m == s.(name := s.id, publicRef := m.publicRef) && (ValidPublicRef(s.publicRef) ==> m.publicRef == s.publicRef)
  }

  /** The session's record was removed, and not as a rollback, when its tmux session and files
      were gone and, unless one was missed (`blind`), no process left on its socket had the
      command line of a bridge. */
  ghost predicate Ended(id: string, w: World, w': World, blind: bool) {
    exists i :: |w.removals| <= i < |w'.removals| && Ends(id, w'.removals[i]) && (w'.removals[i].blind ==> blind)
  }

  /** A good record is still good, or the session was ended. */
  ghost predicate Kept(c: Config, id: string, w: World, w': World, blind: bool) {
    Good(c, w.records, id) ==> Good(c, w'.records, id) || Ended(id, w, w', blind)
  }

  /** Only this session's record and nobody's tmux session changed. */
  ghost predicate LocalTo(id: string, w: World, w': World) {
    w'.tmux == w.tmux && forall k :: k != id ==> SameRecord(w.records, w'.records, k)
  }

  /** The caller means this very session, whatever its record lacks. */
  ghost predicate Agreed(s: Session, ref: string, verify: Session -> Result<()>) {
    (ref == "" || (ValidPublicRef(ref) && s.publicRef == ref)) && forall m :: UpToDate(s, m) ==> verify(m).Ok?
  }

  /** The caller's own checks passed on the record that was read. */
  ghost predicate Consented(c: Config, id: string, w: World, ref: string, verify: Session -> Result<()>) {
    && Good(c, w.records, id)
    && exists m :: UpToDate(w.records[id].session, m) && (ref == "" || m.publicRef == ref) && verify(m).Ok?
  }

  /** The answer is the caller's own objection. */
  ghost predicate Objects(c: Config, id: string, w: World, verify: Session -> Result<()>, r: Result<()>) {
    Good(c, w.records, id) && exists m :: UpToDate(w.records[id].session, m) && verify(m) == r
  }

  /** Every bridge that was seen has been stopped, or could not be recognised any more. */
  predicate SeenGone(stage: Stage) { stage.scanned && stage.left == {} }

  /** What an operation that ends a session may do to it: kill the tmux session that was there,
      and no other. */
  predicate Orderly(c: Config, id: string, w: World, w': World) {
    Extends(c, w, w') && NoRollback(id, w.removals, w'.removals) && SameTmux(id, w, w')
  }

  lemma OrderlyTransitive(c: Config, id: string, a: World, b: World, d: World)
    requires Orderly(c, id, a, b) && Orderly(c, id, b, d)
    ensures Orderly(c, id, a, d)
  {
    ExtendsTransitive(c, a, b, d);
    NoRollbackTransitive(id, a, b, d);
    SameTmuxTransitive(id, a, b, d);
  }

  /** The tmux sessions of this name that were killed had all begun since. */
  predicate KillsOnlyMade(id: string, births: nat, before: seq<Kill>, after: seq<Kill>) {
    forall i :: |before| <= i < |after| && after[i].id == id ==> after[i].born >= births
  }

  /** Nothing of the name was killed until b, and after that at most what was then young. */
  lemma MadeAndKilled(id: string, a: World, b: World, d: World)
    requires NoKill(id, a.kills, b.kills) && SameTmux(id, b, d) && a.kills <= b.kills <= d.kills
    requires id in b.tmux ==> b.tmux[id] >= a.births
    ensures KillsOnlyMade(id, a.births, a.kills, d.kills)
  {
    assert forall i :: 0 <= i < |b.kills| ==> d.kills[i] == b.kills[i];
  }

  lemma NoKillBetween(id: string, a: World, b: World, d: World)
    requires NoKill(id, a.kills, b.kills) && NoKill(id, b.kills, d.kills) && a.kills <= b.kills <= d.kills
    ensures NoKill(id, a.kills, d.kills)
  {
    assert forall i :: 0 <= i < |b.kills| ==> d.kills[i] == b.kills[i];
  }

  lemma MadeLater(id: string, a: World, b: World, d: World)
    requires NoKill(id, a.kills, b.kills) && KillsOnlyMade(id, b.births, b.kills, d.kills)
    requires a.kills <= b.kills <= d.kills && a.births <= b.births
    ensures KillsOnlyMade(id, a.births, a.kills, d.kills)
  {
    assert forall i :: 0 <= i < |b.kills| ==> d.kills[i] == b.kills[i];
  }

  lemma UpToDateIsCanonical(c: Config, s: Session, m: Session)
    requires Configured(c) && Compatible(c.stateDir, s) && UpToDate(s, m) && ValidPublicRef(m.publicRef)
    ensures Canonical(c.stateDir, m) && m.id == s.id
  {
    SocketIsAbsolute(c.stateDir, s.id);
  }

  lemma CanonicalRecordIsGood(c: Config, records: map<string, Stored>, m: Session)
    requires Canonical(c.stateDir, m) && StoredAs(records, m)
    ensures Good(c, records, m.id)
  {
    CanonicalIsGood(c, records, m);
    assert records[m.id := Record(m)] == records;
  }

  lemma StoredStays(c: Config, m: Session, w: World, w': World)
    requires StoredAs(w.records, m) && SameRecord(w.records, w'.records, m.id)
    ensures StoredAs(w'.records, m)
  {
  }

  lemma PidKeepsCanonical(stateDir: string, m: Session, pid: int)
    requires Canonical(stateDir, m) && pid >= 0
    ensures Canonical(stateDir, m.(pid := pid))
  {
  }

  /** Looking from earlier on, and until later, the session was ended all the same. */
  lemma EndedBetween(id: string, a: World, b: World, d: World, w': World, blind: bool, blind': bool)
    requires a.removals <= b.removals && d.removals <= w'.removals && Ended(id, b, d, blind) && (blind ==> blind')
    ensures Ended(id, a, w', blind')
  {
    var i :| |b.removals| <= i < |d.removals| && Ends(id, d.removals[i]) && (d.removals[i].blind ==> blind);
    assert w'.removals[i] == d.removals[i];
  }

  lemma EndedIf(cleaned: bool, id: string, a: World, d: World, w': World, blind: bool, blind': bool)
    requires cleaned ==> Ended(id, a, d, blind) && d.removals <= w'.removals && (blind ==> blind')
    ensures cleaned ==> Ended(id, a, w', blind')
  {
    if cleaned { EndedBetween(id, a, a, d, w', blind, blind'); }
  }

  lemma RecordIsLocal(id: string, w: World, r: Stored)
    ensures LocalTo(id, w, w) && LocalTo(id, w, w.(records := w.records[id := r]))
  {
  }

  lemma LocalToTransitive(id: string, a: World, b: World, d: World)
    requires LocalTo(id, a, b) && LocalTo(id, b, d)
    ensures LocalTo(id, a, d)
  {
    forall k | k != id
      ensures SameRecord(a.records, d.records, k)
    {
      assert SameRecord(a.records, b.records, k) && SameRecord(b.records, d.records, k);
    }
  }

  datatype Resolved = Live(managed: Session) | Cleaned | NotCleaned | NoRecord | BadRecord | Failed

  /** It is this very session, whatever its record lacked and whichever its bridge is now. */
  predicate SameSession(s: Session, m: Session) { UpToDate(s, m.(pid := s.pid)) }

  /** What each answer says about the session before and after. */
  ghost predicate ResolvedOk(c: Config, id: string, w: World, t: Tally, r: Resolved, w': World, t': Tally) {
    && (t'.failures > t.failures <==> r.NotCleaned? || r.Failed?)
    && (Quiet(t, t') ==> LocalTo(id, w, w') && (r.NoRecord? || r.BadRecord? ==> w' == w))
    && match r
    case Live(m) =>
      && Good(c, w.records, id) && UpToDate(w.records[id].session, m) && id in w.tmux
      && Canonical(c.stateDir, m) && m.id == id && StoredAs(w'.records, m) && t'.blind == t.blind
      && (Quiet(t, t') ==> w' == w.(records := w.records[id := Record(m)]))
      && (w.records[id] == Record(m) ==> t'.writes == t.writes)
    case Cleaned => Good(c, w.records, id) && id !in w'.records && id !in w'.tmux && Ended(id, w, w', t'.blind > t.blind)
    case NotCleaned => Good(c, w.records, id) && Good(c, w'.records, id) && id !in w'.tmux
    case NoRecord => id !in w.records && id !in w'.records
    case BadRecord => id in w.records && !Good(c, w.records, id) && SameRecord(w.records, w'.records, id)
    case Failed => if Good(c, w.records, id) then Good(c, w'.records, id) else SameRecord(w.records, w'.records, id)
  }

  /** A session that is returned is its stored canonical record and carries its bridge's PID. */
  ghost predicate Returned(c: Config, id: string, m: Session, w: World, seesAll: bool) {
    && Canonical(c.stateDir, m) && m.id == id && StoredAs(w.records, m) && m.pid > 1
    && (seesAll ==> OnlyBridge(c, m, w.processes, m.pid))
  }

  /** Taking back what a failure left half done has failed as well; a socket path that is too long
      fails without any call failing. */
  predicate TwoFailures(a: Tally, b: Tally, tooLong: bool) { b.failures >= a.failures + if tooLong then 1 else 2 }

  /** Its tmux session was told its history limit and window size, and after everything that was done
      about its bridges, where the agent is. */
  ghost predicate Dressed(id: string, turns: seq<Option<Turn>>) {
    && Asked(id, Effect.Configure(History), turns) && Asked(id, Effect.Configure(WindowSize), turns)
    && Latest(id, Effect.Configure(AgentSocket), turns)
  }

  /** A session that was made just now, in the home directory. */
  predicate MadeFor(c: Config, id: string, createdAt: string, m: Session) {
    && m.id == id && m.name == id && m.tmuxName == id && ValidPublicRef(m.publicRef)
    && m.socket == ExpectedSocket(c.stateDir, id) && m.cwd == c.home && m.createdAt == createdAt
  }

  lemma GoodDepends(c: Config, a: map<string, Stored>, b: map<string, Stored>, id: string)
    requires id !in b || SameRecord(a, b, id)
    ensures id !in b ==> !Good(c, b, id)
    ensures SameRecord(a, b, id) ==> Good(c, a, id) == Good(c, b, id)
  {
  }

  lemma CanonicalSocket(stateDir: string, m: Session)
    requires Canonical(stateDir, m)
    ensures m.socket == ExpectedSocket(stateDir, m.id)
  {
  }

  /** What reconciling one session answers, and what it has done about a dead one. */
  ghost predicate ReconciledOk(c: Config, id: string, w: World, t: Tally, r: Result<Option<Session>>, w': World, t': Tally) {
    && (r.Ok? && r.value.Some? ==> Returned(c, id, r.value.value, w', t'.blind == t.blind) && r.value.value.pid == t'.reported)
    && (r.Ok? && r.value.Some? ==> Good(c, w.records, id) && SameSession(w.records[id].session, r.value.value))
    && (r.Ok? && r.value.None? ==> id !in w'.records && (Good(c, w.records, id) ==> Ended(id, w, w', t'.blind > t.blind)))
    && (r.Err? && Good(c, w.records, id) ==> Good(c, w'.records, id))
    && (Quiet(t, t') ==> LocalTo(id, w, w'))
    && (Quiet(t, t') && Good(c, w.records, id) ==>
          && (r.Ok? ==> (r.value.Some? <==> id in w.tmux)) && (id !in w.tmux ==> r.Ok?)
          && (|ExpectedSocket(c.stateDir, id)| <= MAX_SOCKET_PATH ==> r.Ok?))
  }

  /** The only way to fail then: a bridge had to be started on a socket path that is too long. */
  ghost predicate FailedToStart(c: Config, id: string, w: World, read: Session)
    requires Good(c, w.records, id)
  {
    && UpToDate(w.records[id].session, read) && Canonical(c.stateDir, read) && read.id == id
    && Chosen(c, read, w, 0)
  }

  /** What reconciling a live session does when nothing fails and nobody interferes: the
      record is brought up to date to `read`, and its bridge is tended. */
  ghost predicate ReconciledAs(c: Config, id: string, w: World, t: Tally, read: Session, keep: int, m: Session, w': World, t': Tally) {
    && Good(c, w.records, id) && UpToDate(w.records[id].session, read) && Canonical(c.stateDir, read) && read.id == id && id in w.tmux
    && m == read.(pid := m.pid) && w'.records == w.records[id := Record(m)]
    && Tended(c, read, w.(records := w'.records), keep, Ok(m.pid), w')
    && (w.records[id] == Record(m) ==> t'.writes == t.writes)
  }

  /** Time that only others used does not count. */
  lemma SameReckoning(c: Config, id: string, w: World, t: Tally, t0: Tally, r: Result<Option<Session>>, w': World, t': Tally)
    requires ReconciledOk(c, id, w, t, r, w', t') && Later(t0, t) && Later(t, t') && t == t0.(disturbed := t.disturbed)
    ensures ReconciledOk(c, id, w, t0, r, w', t')
  {
  }

  predicate SameBridge(a: Session, w: World, b: Session, w': World) {
    a.pid == b.pid && a.pid in w.processes && b.pid in w'.processes && w.processes[a.pid] == w'.processes[b.pid]
  }

  lemma OneChosen(c: Config, m: Session, w: World, pid: int)
    requires Ready(w, m.id) && Currents(c, m, Seen(w, m)) == {pid} && pid > 1
    ensures !Chosen(c, m, w, 0)
  {
  }

  /** The two rounds of ReconcileTwice, as worlds. */
  lemma TwicePasses(c: Config, id: string, w: World, t: Tally, read: Session, keep: int, m: Session, w': World, t': Tally,
                    second: Result<Option<Session>>, read2: Session, keep2: int, w2: World, t2: Tally)
    requires Configured(c) && Sound(w) && ReconciledAs(c, id, w, t, read, keep, m, w', t')
    requires ReconciledOk(c, id, w', t', second, w2, t2) && Quiet(t', t2)
    requires second.Ok? && second.value.Some? ==> ReconciledAs(c, id, w', t', read2, keep2, second.value.value, w2, t2)
    requires second.Err? && Good(c, w'.records, id) ==> FailedToStart(c, id, w', read2)
    ensures keep != 0 ==> id in w.listeners
    ensures Ready(w', id) <==> keep == 0 || !CutsOff(c, read, w, keep)
    ensures second.Ok? ==> second.value.Some?
    ensures Ready(w', id) ==> second == Ok(Some(m)) && w2 == w' && t2.writes == t'.writes
    ensures !Ready(w', id) && second.Ok? ==> !SameBridge(m, w', second.value.value, w2)
  {
    hide Canonical, Compatible, KindIn, OnlyBridge, Good, IsLaunched, Returned, Bridges, Seen, Kinds, Ended, Chosen, Tended;
    var w0 := w.(records := w'.records);
    FirstPass(c, read, w0, keep, Ok(m.pid), w');
    SameSight(c, read, w, w0);
    CanonicalRecordIsGood(c, w'.records, m);
    TendedFrame(c, read, w0, keep, Ok(m.pid), w');
    if Ready(w', id) { OneChosen(c, m, w', m.pid); }
    if second.Err? {
      CanonicalUpToDate(c, m, read2);
    } else {
      CanonicalUpToDate(c, m, read2);
      var m2 := second.value.value;
      TendedAnyRecords(c, m, w'.(records := w2.records), keep2, Ok(m2.pid), w2, w'.records);
      assert w'.(records := w2.records).(records := w'.records) == w';
      SecondPass(c, read, w0, keep, Ok(m.pid), w', keep2, Ok(m2.pid), w2.(records := w'.records));
    }
  }

  lemma CanonicalUpToDate(c: Config, m: Session, read: Session)
    requires Canonical(c.stateDir, m) && UpToDate(m, read)
    ensures read == m
  {
  }

  ghost predicate NoRepeat(ids: seq<string>) { forall i, j :: 0 <= i < j < |ids| ==> ids[i] != ids[j] }

  ghost predicate ShortSockets(c: Config, records: map<string, Stored>) {
    forall id :: id in records && Good(c, records, id) ==> |ExpectedSocket(c.stateDir, id)| <= MAX_SOCKET_PATH
  }

  ghost predicate Answered(sessions: seq<Session>, id: string) { exists j :: 0 <= j < |sessions| && sessions[j].id == id }

  /** How far a quiet reconciliation has come: a listed session that was looked at has a good
      record, and is answered, exactly when its tmux session lives; the others are untouched. */
  ghost predicate Settled(c: Config, w0: World, w: World, done: seq<string>, sessions: seq<Session>) {
    && w.tmux == w0.tmux
    && (forall id :: id in done ==> (Good(c, w.records, id) <==> id in w0.tmux) && (id in w0.tmux <==> Answered(sessions, id)))
    && (forall id :: id !in done ==> SameRecord(w0.records, w.records, id))
    && (forall j :: 0 <= j < |sessions| ==> sessions[j].id in done && StoredAs(w.records, sessions[j]))
  }

  lemma SettlesOne(c: Config, w0: World, w: World, done: seq<string>, sessions: seq<Session>, id: string, t: Tally,
                   r: Result<Option<Session>>, w': World, t': Tally)
    requires Settled(c, w0, w, done, sessions) && id !in done && Good(c, w0.records, id)
    requires |ExpectedSocket(c.stateDir, id)| <= MAX_SOCKET_PATH
    requires ReconciledOk(c, id, w, t, r, w', t') && Quiet(t, t')
    ensures r.Ok? && Settled(c, w0, w', done + [id], if r.value.Some? then sessions + [r.value.value] else sessions)
  {
    hide Canonical, Good, KindIn, OnlyBridge, ValidId, Ended;
    GoodDepends(c, w0.records, w.records, id);
    if r.value.Some? {
      CanonicalRecordIsGood(c, w'.records, r.value.value);
      SettledMore(c, w0, w, done, sessions, id, [r.value.value], w');
    } else {
      GoodDepends(c, w.records, w'.records, id);
      SettledMore(c, w0, w, done, sessions, id, [], w');
      assert sessions + [] == sessions;
    }
  }

  lemma SettledMore(c: Config, w0: World, w: World, done: seq<string>, sessions: seq<Session>, id: string, answer: seq<Session>, w': World)
    requires Settled(c, w0, w, done, sessions) && id !in done && LocalTo(id, w, w') && |answer| <= 1
    requires answer == [] ==> id !in w0.tmux && !Good(c, w'.records, id)
    requires answer != [] ==> id in w0.tmux && Good(c, w'.records, id) && answer[0].id == id && StoredAs(w'.records, answer[0])
    ensures Settled(c, w0, w', done + [id], sessions + answer)
  {
    hide Good;
    var more := sessions + answer;
    assert more[..|sessions|] == sessions && (answer != [] ==> more[|sessions|] == answer[0]);
    assert Answered(more, id) <==> answer != [] by {
      assert forall j :: 0 <= j < |sessions| ==> more[j] == sessions[j] && sessions[j].id in done;
    }
    forall k | k in done
      ensures (Good(c, w'.records, k) <==> k in w0.tmux) && (k in w0.tmux <==> Answered(more, k))
    {
      GoodDepends(c, w.records, w'.records, k);
      AnsweredMore(sessions, more, k);
    }
    forall j | 0 <= j < |more|
      ensures more[j].id in done + [id] && StoredAs(w'.records, more[j])
    {
      if j < |sessions| { assert more[j] == sessions[j] && SameRecord(w.records, w'.records, sessions[j].id); }
    }
    forall k | k !in done + [id]
      ensures SameRecord(w0.records, w'.records, k)
    {
      assert k !in done && k != id && SameRecord(w0.records, w.records, k) && SameRecord(w.records, w'.records, k);
    }
  }

  lemma AnsweredMore(sessions: seq<Session>, more: seq<Session>, k: string)
    requires |sessions| <= |more| <= |sessions| + 1 && more[..|sessions|] == sessions
    requires |more| > |sessions| ==> more[|sessions|].id != k
    ensures Answered(sessions, k) <==> Answered(more, k)
  {
    if Answered(sessions, k) {
      var j :| 0 <= j < |sessions| && sessions[j].id == k;
      assert more[j] == more[..|sessions|][j];
    }
    if Answered(more, k) {
      var j :| 0 <= j < |more| && more[j].id == k;
      assert more[j] == more[..|sessions|][j];
    }
  }

  /** One session's turn in a reconciliation: the world before, when its lock was taken, and after. */
  datatype Round = Round(id: string, start: World, locked: World, before: Tally, answer: Result<Option<Session>>, after: World, tally: Tally)

  ghost predicate RoundOk(c: Config, w: World, t: Tally, round: Round, w': World, t': Tally) {
    && Extends(c, w, round.start) && Extends(c, round.start, round.locked) && Keeps(c, round.id, round.locked, round.after)
    && Extends(c, round.after, w') && (round.tally.disturbed == round.before.disturbed ==> round.locked == round.start)
    && Later(t, round.before) && Later(round.before, round.tally) && Later(round.tally, t')
    && ReconciledOk(c, round.id, round.locked, round.before, round.answer, round.after, round.tally)
  }

  /** Nothing happens between one round and the next. */
  ghost predicate Chained(w: World, rounds: seq<Round>, w': World) {
    if rounds == [] then w' == w
    else
      var last := rounds[|rounds| - 1];
      last.after == w' && Chained(w, rounds[..|rounds| - 1], last.start)
  }

  ghost predicate LookedAt(rounds: seq<Round>, id: string) { exists i :: 0 <= i < |rounds| && rounds[i].id == id }

  /** The sessions that were answered, in order. */
  function Answers(rounds: seq<Round>): seq<Session> {
    if rounds == [] then []
    else
      var answer := rounds[|rounds| - 1].answer;
      Answers(rounds[..|rounds| - 1]) + if answer.Ok? && answer.value.Some? then [answer.value.value] else []
  }

  lemma RoundAdded(c: Config, w: World, t: Tally, rounds: seq<Round>, before: World, tally: Tally, round: Round)
    requires forall i :: 0 <= i < |rounds| ==> RoundOk(c, w, t, rounds[i], before, tally)
    requires Extends(c, w, before) && round.start == before && Extends(c, before, round.locked)
    requires Keeps(c, round.id, round.locked, round.after) && (round.tally.disturbed == round.before.disturbed ==> round.locked == before)
    requires Later(t, tally) && round.before == tally && Later(tally, round.tally)
    requires ReconciledOk(c, round.id, round.locked, round.before, round.answer, round.after, round.tally)
    ensures Extends(c, w, round.after) && Later(t, round.tally)
    ensures forall i :: 0 <= i < |rounds| ==> RoundOk(c, w, t, rounds[i], round.after, round.tally)
    ensures RoundOk(c, w, t, round, round.after, round.tally)
  {
    hide ReconciledOk, NoRollback, Extends;
    ExtendsTransitive(c, w, before, round.locked);
    ExtendsTransitive(c, before, round.locked, round.after);
    ExtendsTransitive(c, w, before, round.after);
    ExtendsReflexive(c, round.after);
    forall i | 0 <= i < |rounds|
      ensures RoundOk(c, w, t, rounds[i], round.after, round.tally)
    {
      ExtendsTransitive(c, rounds[i].after, before, round.after);
    }
  }

  /** How far a reconciliation has come. */
  ghost predicate Underway(c: Config, w0: World, t0: Tally, listed: seq<string>, rounds: seq<Round>, sessions: seq<Session>,
                           failed: bool, w: World, t: Tally) {
    && |rounds| <= |listed| && Extends(c, w0, w) && Later(t0, t) && Chained(w0, rounds, w)
    && (forall j :: 0 <= j < |rounds| ==> rounds[j].id == listed[j] && RoundOk(c, w0, t0, rounds[j], w, t))
    && (!failed ==> sessions == Answers(rounds) && forall j :: 0 <= j < |rounds| ==> rounds[j].answer.Ok?)
    && (Quiet(t0, t) && ShortSockets(c, w0.records) ==> !failed && Settled(c, w0, w, listed[..|rounds|], sessions))
  }

  lemma NoneUnderway(c: Config, w: World, t0: Tally, listed: seq<string>, t: Tally)
    requires Later(t0, t)
    ensures Underway(c, w, t0, listed, [], [], false, w, t)
  {
    assert listed[..0] == [];
    ExtendsReflexive(c, w);
    NoneSettled(c, w);
  }

  lemma ChainedMore(w0: World, rounds: seq<Round>, w: World, round: Round)
    requires Chained(w0, rounds, w) && round.start == w
    ensures Chained(w0, rounds + [round], round.after)
  {
    assert (rounds + [round])[..|rounds|] == rounds;
  }

  lemma RoundGoesOn(c: Config, w0: World, t0: Tally, listed: seq<string>, rounds: seq<Round>, sessions: seq<Session>,
                    failed: bool, w: World, t: Tally, round: Round)
    requires Underway(c, w0, t0, listed, rounds, sessions, failed, w, t) && NoRepeat(listed)
    requires |rounds| < |listed| && round.id == listed[|rounds|] && Good(c, w0.records, round.id)
    requires round.start == w && Extends(c, w, round.locked) && Keeps(c, round.id, round.locked, round.after)
    requires round.before == t && Later(t, round.tally) && (t.disturbed == round.tally.disturbed ==> round.locked == w)
    requires ReconciledOk(c, round.id, round.locked, round.before, round.answer, round.after, round.tally)
    ensures Underway(c, w0, t0, listed, rounds + [round],
                     if round.answer.Ok? && round.answer.value.Some? then sessions + [round.answer.value.value] else sessions,
                     failed || round.answer.Err?, round.after, round.tally)
  {
    hide ReconciledOk, NoRollback, Extends, Settled, Good, Chained;
    var n := |rounds|;
    ChainedMore(w0, rounds, w, round);
    RoundAdded(c, w0, t0, rounds, w, t, round);
    assert (rounds + [round])[..n] == rounds;
    if Quiet(t0, round.tally) && ShortSockets(c, w0.records) {
      assert round.id !in listed[..n];
      GoodId(c, w0.records, round.id);
      SettlesOne(c, w0, w, listed[..n], sessions, round.id, t, round.answer, round.after, round.tally);
      assert listed[..n] + [round.id] == listed[..n + 1];
    }
  }

  lemma RoundsDone(c: Config, w0: World, t0: Tally, listed: seq<string>, rounds: seq<Round>, sessions: seq<Session>,
                   failed: bool, w: World, t: Tally)
    requires Underway(c, w0, t0, listed, rounds, sessions, failed, w, t) && |rounds| == |listed|
    requires forall id :: id in listed ==> Good(c, w0.records, id)
    requires t.failures == t0.failures ==> forall id :: Good(c, w0.records, id) ==> id in listed
    ensures Chained(w0, rounds, w)
    ensures Extends(c, w0, w) && forall i :: 0 <= i < |rounds| ==> RoundOk(c, w0, t0, rounds[i], w, t)
    ensures t.failures == t0.failures ==> forall id :: Good(c, w0.records, id) ==> LookedAt(rounds, id)
    ensures !failed ==> sessions == Answers(rounds) && forall i :: 0 <= i < |rounds| ==> rounds[i].answer.Ok?
    ensures Quiet(t0, t) && ShortSockets(c, w0.records) ==>
      && !failed && (forall i :: 0 <= i < |sessions| ==> StoredAs(w.records, sessions[i]))
      && (forall id :: Good(c, w.records, id) <==> Good(c, w0.records, id) && id in w0.tmux)
      && (forall id :: Good(c, w.records, id) <==> Answered(sessions, id))
  {
    hide RoundOk, Extends, Settled, Good;
    assert listed[..|listed|] == listed;
    forall id | id in listed
      ensures LookedAt(rounds, id)
    {
      var j :| 0 <= j < |listed| && listed[j] == id;
      assert rounds[j].id == id;
    }
    if Quiet(t0, t) && ShortSockets(c, w0.records) {
      AllSettled(c, w0, w, listed, sessions);
    }
  }

  lemma GoodId(c: Config, records: map<string, Stored>, id: string)
    requires Good(c, records, id)
    ensures ValidId(id) && id in records
  {
  }

  lemma NoneSettled(c: Config, w: World)
    ensures Settled(c, w, w, [], [])
  {
  }

  lemma AllSettled(c: Config, w0: World, w: World, listed: seq<string>, sessions: seq<Session>)
    requires Settled(c, w0, w, listed, sessions) && forall id :: id in listed <==> Good(c, w0.records, id)
    ensures forall id :: Good(c, w.records, id) <==> Good(c, w0.records, id) && id in w0.tmux
    ensures forall id :: Good(c, w.records, id) <==> Answered(sessions, id)
    ensures forall j :: 0 <= j < |sessions| ==> StoredAs(w.records, sessions[j])
  {
    forall id
      ensures Good(c, w.records, id) <==> Good(c, w0.records, id) && id in w0.tmux
      ensures Good(c, w.records, id) <==> Answered(sessions, id)
    {
      if id !in listed { GoodDepends(c, w0.records, w.records, id); }
    }
  }

  ghost function First(files: seq<Artifact>, n: nat): set<Artifact>
    requires n <= |files|
  {
    set j | 0 <= j < n :: files[j]
  }

  /** The world without a session's files. */
  function FilesGone(m: Session, w: World): World { FilesOff(m, OwnFiles(m.id, m.publicRef), w) }

  /** ... and without some of them. */
  function FilesOff(m: Session, files: set<Artifact>, w: World): World {
    w.(files := w.files - files, listeners := if SocketFile(m.id) in files then w.listeners - {m.id} else w.listeners)
  }

  /** The world after a dead session was cleaned up. */
  ghost function CleanedUp(c: Config, m: Session, w: World): World {
    WithoutRecord(c, m.id, FilesGone(m, Cleared(c, m, w)), false, Blind(c, m, w))
  }

  /** Exactly which processes go on serving the session's socket when cleaning up removes its
      record, and so exactly when one does; the log names them. */
  lemma CleanupLeavesServer(c: Config, m: Session, w: World)
    requires StoredAs(w.records, m)
    ensures var w' := CleanedUp(c, m, w);
            && m.id !in w'.records && |w'.removals| == |w.removals| + 1
            && w'.removals[|w.removals|].serversLeft.Keys == ServersOf(c, m.id, w'.processes).Keys
            && (forall pid :: pid in ServersOf(c, m.id, w'.processes) <==> Spared(c, m, w, pid))
            && (ServersOf(c, m.id, w'.processes) != map[] <==> exists pid :: Spared(c, m, w, pid))
  {
    hide KindIn, Serves, Spared;
    StopLeavesServer(c, m, w);
  }

  /** A session whose tmux session has died, with one bridge still running as process q. */
  ghost function DeadSession(m: Session, argv: Argv, q: int, exe: nat, sight: Sight): World {
    World(map[m.id := Record(m)], map[], map[q := Process(0, exe, argv)], sight, map[], {}, 1, 0, [], [])
  }

  /** If q is spared, the record goes and q runs on. */
  lemma RemovedUnseen(c: Config, m: Session, argv: Argv, q: int, exe: nat, sight: Sight)
    requires Canonical(c.stateDir, m) && NulFree(argv) && Spared(c, m, DeadSession(m, argv, q, exe, sight), q)
    ensures var w := DeadSession(m, argv, q, exe, sight);
            && Sound(w) && m.id !in w.tmux && StoredAs(w.records, m)
            && m.id !in CleanedUp(c, m, w).records && q in ServersOf(c, m.id, CleanedUp(c, m, w).processes)
  {
    hide Canonical, KindIn, Spared, Serves;
    CleanupLeavesServer(c, m, DeadSession(m, argv, q, exe, sight));
  }

  lemma LaunchedServes(c: Config, m: Session, argv: Argv, q: int, exe: nat, started: nat)
    requires Configured(c) && IsLaunched(c, m, argv) && q > 1
    ensures NulFree(argv) && Serves(c, m.id, Process(started, exe, argv))
  {
    LaunchedNulFree(c, m, argv);
    LaunchedIsCurrent(c, m, argv, q, started, exe);
    BridgesServe(c, m, q, Process(started, exe, argv));
  }

  /** The file found as ttyd was replaced after the bridge began, as by an upgrade: everything
      can be seen, and yet the record goes and the bridge runs on. */
  lemma RemovedAfterUpgrade(c: Config, m: Session, argv: Argv, q: int, exe: nat, now: nat)
    requires Configured(c) && Canonical(c.stateDir, m) && IsLaunched(c, m, argv) && q > 1 && now != exe
    ensures var w := DeadSession(m, argv, q, exe, Sight(Some(now), true, {}));
            && Sound(w) && m.id !in CleanedUp(c, m, w).records && q in ServersOf(c, m.id, CleanedUp(c, m, w).processes)
  {
    hide IsLaunched, Canonical, KindIn, Serves;
    LaunchedServes(c, m, argv, q, exe, 0);
    assert DeadSession(m, argv, q, exe, Sight(Some(now), true, {})).processes[q] == Process(0, exe, argv);
    RemovedUnseen(c, m, argv, q, exe, Sight(Some(now), true, {}));
  }

  /** The bridge was started by a server with another tmux path: its command line is no bridge's
      any more, and it runs on although nothing was passed over. */
  lemma RemovedAfterMove(c: Config, before: Config, m: Session, argv: Argv, q: int, exe: nat)
    requires Configured(c) && Configured(before) && before == c.(tmux := before.tmux) && before.tmux != c.tmux
    requires Canonical(c.stateDir, m) && IsLaunched(before, m, argv) && q > 1
    ensures var w := DeadSession(m, argv, q, exe, Sight(Some(exe), true, {}));
            && Sound(w) && !Blind(c, m, w)
            && m.id !in CleanedUp(c, m, w).records && q in ServersOf(c, m.id, CleanedUp(c, m, w).processes)
  {
    LaunchedServes(before, m, argv, q, exe, 0);
    OtherTmuxIsUnrelated(c.stateDir, m, Base(c.ttyd), c.tmux, before.tmux, c.ttyd, Itoa(c.scrollback), argv, q);
    hide IsLaunched, Canonical, KindOf, Serves;
    var w := DeadSession(m, argv, q, exe, Sight(Some(exe), true, {}));
    assert w.processes[q] == Process(0, exe, argv);
    BlindTo(c, m, w);
    RemovedUnseen(c, m, argv, q, exe, Sight(Some(exe), true, {}));
  }

  lemma RemovedBridges(c: Config, id: string, w: World, bare: World, rollback: bool, blind: bool, w': World)
    requires Wanes(c, id, w, bare) && Wanes(c, id, WithoutRecord(c, id, bare, rollback, blind), w')
    ensures NoNewBridges(c, id, w.processes, w'.processes)
  {
    hide KindIn, Serves, Canonical, Sound, RemovalOf, GoodOrLogged;
  }

  /** Where there was no bridge there is none, whatever others did since. */
  lemma NoBridgesStay(c: Config, m: Session, a: World, b: World, d: World)
    requires Configured(c) && Placed(c, m) && Sound(b) && Sound(d) && Bridges(c, m, a.processes) == {}
    requires NoNewBridges(c, m.id, a.processes, b.processes) && NoNewBridges(c, m.id, b.processes, d.processes)
    ensures Bridges(c, m, d.processes) == {}
  {
    hide KindIn, Serves, Canonical;
    BridgesWane(c, m, a.processes, b.processes, b.starts);
    BridgesWane(c, m, b.processes, d.processes, d.starts);
  }

  lemma RemovedTmux(c: Config, id: string, w: World, bare: World, rollback: bool, blind: bool, w': World)
    requires Wanes(c, id, w, bare) && Wanes(c, id, WithoutRecord(c, id, bare, rollback, blind), w')
    ensures SameTmux(id, w, w') && NoKill(id, w.kills, w'.kills) && id !in w'.records
  {
    hide KindIn, Serves, Canonical, Sound, NoNewBridges, RemovalOf;
    SameTmuxTransitive(id, w, bare, w');
    NoKillBetween(id, w, bare, w');
  }

  lemma RemovedEnds(c: Config, m: Session, w: World, bare: World, blind: bool, w': World)
    requires StoredAs(w.records, m) && Wanes(c, m.id, w, bare) && Allowed(c, m.id, bare, RemoveRecord(false, blind))
    requires Wanes(c, m.id, WithoutRecord(c, m.id, bare, false, blind), w')
    ensures NoRollback(m.id, w.removals, w'.removals) && Ended(m.id, w, w', blind)
  {
    hide KindIn, Serves, Canonical, Sound, NoNewBridges, NoneKnown, Kinds;
    var gone := WithoutRecord(c, m.id, bare, false, blind);
    assert gone.removals == bare.removals + [RemovalOf(c, m.id, bare, false, blind)];
    assert w'.removals[|bare.removals|] == gone.removals[|bare.removals|];
    assert forall i :: 0 <= i < |bare.removals| ==> w'.removals[i] == bare.removals[i];
  }

  lemma CanonicalId(stateDir: string, m: Session)
    requires Canonical(stateDir, m)
    ensures ValidId(m.id)
  {
  }

  lemma SoundProcesses(w: World)
    requires Sound(w)
    ensures ProcessesOk(w.processes, w.starts)
  {
  }

  class Manager {
    const host: Host
    const bridge: ProcessBridge

    ghost predicate Valid()
      reads host
    {
      bridge.host == host && host.Valid()
    }

    constructor (host: Host)
      requires host.Valid()
      ensures Valid() && this.host == host
    {
      this.host := host;
      this.bridge := new ProcessBridge(host);
    }

    // ----- The registry

    method NewPublicRef() returns (ok: bool, ref: string)
      modifies host`t
      ensures ok ==> ValidPublicRef(ref) && host.t == old(host.t)
      ensures !ok ==> host.t == old(host.t).(failures := old(host.t).failures + 1)
    {
      hide Traced, Latest;
      ref := *;
      ok := ValidPublicRef(ref);
      if !ok {
        host.t := host.t.(failures := host.t.failures + 1);
      }
    }

    /** A write that reports failure may have taken place all the same. */
    method Write(m: Session) returns (ok: bool)
      requires Valid() && Canonical(host.c.stateDir, m)
      requires host.holder == Some(m.id)
      modifies host`w, host`t, host`stage, host`path, host`turns
      ensures OnlyWrote(old(host.turns)) ==> OnlyWrote(host.turns)
      ensures Valid() && Keeps(host.c, m.id, old(host.w), host.w) && Later(old(host.t), host.t) && host.t.blind == old(host.t).blind
      ensures ok <==> host.t.failures == old(host.t).failures
      ensures ok ==> host.t.writes == old(host.t).writes + 1
      ensures host.t.reported == old(host.t).reported && SameTmux(m.id, old(host.w), host.w)
      ensures NoNewBridges(host.c, m.id, old(host.w).processes, host.w.processes)
      ensures StoredAs(host.w.records, m) || (!ok && SameRecord(old(host.w).records, host.w.records, m.id))
      ensures forall e :: Latest(m.id, e, old(host.turns)) ==> Latest(m.id, e, host.turns)
      ensures Quiet(old(host.t), host.t) ==> host.w == old(host.w).(records := old(host.w).records[m.id := Record(m)])
    {
      hide Traced, Latest;
      var failed := host.Fails();
      if failed {
        if * {
          host.Act(m.id, WriteRecord(m));
        } else {
          host.Interfere(m.id);
        }
        return false;
      }
      host.Act(m.id, WriteRecord(m));
      host.t := host.t.(writes := host.t.writes + 1);
      return true;
    }

    /** Reads a session's record, bringing an old one up to date. */
    method ReadManaged(id: string) returns (r: ReadResult)
      requires Valid() && ValidId(id)
      requires host.holder == Some(id)
      modifies host`w, host`t, host`stage, host`path, host`turns
      ensures OnlyWrote(old(host.turns)) ==> OnlyWrote(host.turns)
      ensures Valid() && Keeps(host.c, id, old(host.w), host.w) && Later(old(host.t), host.t) && host.t.blind == old(host.t).blind
      ensures SameTmux(id, old(host.w), host.w)
      ensures r.Found? ==>
        && Good(host.c, old(host.w).records, id) && UpToDate(old(host.w).records[id].session, r.managed)
        && Canonical(host.c.stateDir, r.managed) && r.managed.id == id && StoredAs(host.w.records, r.managed)
        && host.t.failures == old(host.t).failures
      ensures r.Missing? ==> id !in old(host.w).records
      ensures r.Invalid? ==> id in old(host.w).records && !Good(host.c, old(host.w).records, id)
      ensures r.Missing? || r.Invalid? ==> Wanes(host.c, id, old(host.w), host.w) && host.t.failures == old(host.t).failures
      ensures r.Unreadable? ==> host.t.failures > old(host.t).failures
      ensures if Good(host.c, old(host.w).records, id) then Good(host.c, host.w.records, id)
              else SameRecord(old(host.w).records, host.w.records, id)
      ensures Quiet(old(host.t), host.t) ==>
        if r.Found? then host.w == old(host.w).(records := old(host.w).records[id := Record(r.managed)]) else host.w == old(host.w)
      ensures r.Found? && old(host.w).records[id] == Record(r.managed) ==> host.t.writes == old(host.t).writes
    {
      hide Traced, KindIn, Canonical, Compatible, OnlyWrote, Latest, Asked, Keeps, SameTmux, Wanes, Sound, NoNewBridges, NoNewListener;
      var failed := host.Fails();
      var records := host.w.records;
      host.Interfere(id);
      WanesLeaves(host.c, id, old(host.w), host.w);
      if failed {
        return Unreadable;
      }
      if id !in records {
        return Missing;
      }
      if !Good(host.c, records, id) {
        return Invalid;
      }
      var managed := records[id].session;
      if managed.name == managed.id && ValidPublicRef(managed.publicRef) {
        UpToDateIsCanonical(host.c, managed, managed);
        assert records[id := Record(managed)] == records;
        return Found(managed);
      }
      ghost var before := host.w;
      r := Migrate(managed);
      KeepsSameTmux(host.c, id, old(host.w), before, host.w);
    }

    method Migrate(s: Session) returns (r: ReadResult)
      requires Valid() && Compatible(host.c.stateDir, s) && StoredAs(host.w.records, s)
      requires s.name != s.id || !ValidPublicRef(s.publicRef)
      requires host.holder == Some(s.id)
      modifies host`w, host`t, host`stage, host`path, host`turns
      ensures OnlyWrote(old(host.turns)) ==> OnlyWrote(host.turns)
      ensures Valid() && Keeps(host.c, s.id, old(host.w), host.w) && Later(old(host.t), host.t) && host.t.blind == old(host.t).blind
      ensures SameTmux(s.id, old(host.w), host.w) && Good(host.c, host.w.records, s.id)
      ensures if host.t.failures == old(host.t).failures then r.Found? else r.Unreadable?
      ensures r.Found? ==>
        && UpToDate(s, r.managed) && Canonical(host.c.stateDir, r.managed) && StoredAs(host.w.records, r.managed) && r.managed != s
      ensures Quiet(old(host.t), host.t) ==>
        r.Found? && host.w == old(host.w).(records := old(host.w).records[s.id := Record(r.managed)])
    {
      hide Traced, Latest;
      var managed, ok := s.(name := s.id), true;
      if !ValidPublicRef(managed.publicRef) {
        var ref;
        ok, ref := NewPublicRef();
        if !ok {
          return Unreadable;
        }
        managed := managed.(publicRef := ref);
      }
      UpToDateIsCanonical(host.c, s, managed);
      ok := Write(managed);
      if StoredAs(host.w.records, managed) {
        CanonicalRecordIsGood(host.c, host.w.records, managed);
      }
      return if ok then Found(managed) else Unreadable;
    }

    // ----- Ending a session

    method DeleteOne(m: Session, file: Artifact) returns (ok: bool)
      requires Valid()
      requires host.holder == Some(m.id) && file in OwnFiles(m.id, m.publicRef)
      modifies host`w, host`t, host`stage, host`path, host`turns
      ensures Valid() && Wanes(host.c, m.id, old(host.w), host.w) && Later(old(host.t), host.t)
      ensures host.t.blind == old(host.t).blind && host.t.writes == old(host.t).writes && (ok <==> host.t.failures == old(host.t).failures)
      ensures host.stage == if ok then old(host.stage).(deleted := old(host.stage).deleted + {file}) else old(host.stage)
      ensures Quiet(old(host.t), host.t) ==> host.w == FilesOff(m, {file}, old(host.w))
    {
      hide Traced, Latest, KindIn, Serves, GoodOrLogged, OwnEbbs, Sound, NoKill;
      var failed := host.Fails();
      if failed {
        host.Interfere(m.id);
      } else {
        host.Destroy(m.id, DeleteFile(file));
      }
      return !failed;
    }

    method DeleteFiles(m: Session) returns (ok: bool)
      requires Valid()
      requires host.holder == Some(m.id)
      modifies host`w, host`t, host`stage, host`path, host`turns
      ensures Valid() && Wanes(host.c, m.id, old(host.w), host.w) && Later(old(host.t), host.t)
      ensures host.t.blind == old(host.t).blind && host.t.writes == old(host.t).writes && (ok <==> host.t.failures == old(host.t).failures)
      ensures host.stage == old(host.stage).(deleted := host.stage.deleted) && (ok ==> OwnFiles(m.id, m.publicRef) <= host.stage.deleted)
      ensures Quiet(old(host.t), host.t) ==> host.w == FilesGone(m, old(host.w))
    {
      hide Traced, Latest, Wanes;
      var files := [SocketFile(m.id), LogFile(m.id), ResizeFile(m.id), ResizeFile(m.publicRef)];
      ok := true;
      WanesReflexive(host.c, m.id, host.w);
      for i := 0 to |files|
        invariant Valid() && Wanes(host.c, m.id, old(host.w), host.w) && Later(old(host.t), host.t)
        invariant host.t.blind == old(host.t).blind && host.t.writes == old(host.t).writes && (ok <==> host.t.failures == old(host.t).failures)
        invariant host.stage == old(host.stage).(deleted := host.stage.deleted)
        invariant ok ==> First(files, i) <= host.stage.deleted
        invariant Quiet(old(host.t), host.t) ==> host.w == FilesOff(m, First(files, i), old(host.w))
      {
        ghost var before := host.w;
        var gone := DeleteOne(m, files[i]);
        ok := ok && gone;
        WanesTransitive(host.c, m.id, old(host.w), before, host.w);
        assert First(files, i + 1) == First(files, i) + {files[i]};
      }
      assert forall a :: a in OwnFiles(m.id, m.publicRef) ==> a == files[0] || a == files[1] || a == files[2] || a == files[3];
      assert First(files, |files|) == OwnFiles(m.id, m.publicRef);
    }

    /** Removes a session's files and then, if none was left, its record. */
    method RemoveArtifacts(m: Session) returns (ok: bool)
      requires Valid() && ValidId(m.id) && host.holder == Some(m.id)
      requires host.making || (StoredAs(host.w.records, m) && host.stage.scanned && host.stage.left == {} && host.stage.dead)
      modifies host`w, host`t, host`stage, host`path, host`turns
      ensures Valid() && Extends(host.c, old(host.w), host.w) && Later(old(host.t), host.t)
      ensures host.t.blind == old(host.t).blind && host.t.writes == old(host.t).writes && (ok <==> host.t.failures == old(host.t).failures)
      ensures if ok then m.id !in host.w.records else Wanes(host.c, m.id, old(host.w), host.w)
      ensures NoNewBridges(host.c, m.id, old(host.w).processes, host.w.processes)
      ensures !ok ==> host.stage == old(host.stage).(deleted := host.stage.deleted)
      ensures SameTmux(m.id, old(host.w), host.w) && NoKill(m.id, old(host.w).kills, host.w.kills)
      ensures !host.making ==> NoRollback(m.id, old(host.w).removals, host.w.removals)
      ensures ok && !host.making ==> Ended(m.id, old(host.w), host.w, old(host.stage.blind))
      ensures Quiet(old(host.t), host.t) ==>
        host.w == WithoutRecord(host.c, m.id, FilesGone(m, old(host.w)), host.making, old(host.stage.blind))
    {
      hide Traced, Latest, KindIn, Serves, Canonical, GoodOrLogged, Sound, NoNewBridges, SameTmux;
      ok := DeleteFiles(m);
      WanesLeaves(host.c, m.id, old(host.w), host.w);
      if !ok {
        return;
      }
      var failed := host.Fails();
      if failed {
        return false;
      }
      ghost var bare, blind := host.w, host.stage.blind;
      host.Remove(m.id);
      ExtendsTransitive(host.c, old(host.w), bare, host.w);
      RemovedBridges(host.c, m.id, old(host.w), bare, host.making, blind, host.w);
      RemovedTmux(host.c, m.id, old(host.w), bare, host.making, blind, host.w);
      if !host.making { RemovedEnds(host.c, m, old(host.w), bare, blind, host.w); }
    }

    /** What is done about a session whose tmux session has died. */
    method CleanupLocked(m: Session) returns (ok: bool)
      requires Valid() && Canonical(host.c.stateDir, m) && StoredAs(host.w.records, m) && m.id !in host.w.tmux
      requires host.stage.dead && !host.making && host.holder == Some(m.id)
      modifies host`w, host`t, host`stage, host`path, host`turns
      ensures Valid() && Keeps(host.c, m.id, old(host.w), host.w) && Later(old(host.t), host.t)
      ensures host.t.writes == old(host.t).writes && (ok <==> host.t.failures == old(host.t).failures)
      ensures if ok then m.id !in host.w.records else StoredAs(host.w.records, m)
      ensures m.id !in host.w.tmux && SameTmux(m.id, old(host.w), host.w)
      ensures ok ==> Ended(m.id, old(host.w), host.w, host.t.blind > old(host.t).blind)
      ensures Quiet(old(host.t), host.t) ==> host.w == CleanedUp(host.c, m, old(host.w)) && LocalTo(m.id, old(host.w), host.w)
    {
      hide Traced, Latest, KindIn, Canonical, Good, Ended;
      CanonicalId(host.c.stateDir, m);
      ok := bridge.Stop(m);
      if !ok {
        return;
      }
      ghost var before := host.w;
      ghost var blind := host.stage.blind;
      ok := RemoveArtifacts(m);
      KeepsTransitive(host.c, m.id, old(host.w), before, host.w);
      SameTmuxTransitive(m.id, old(host.w), before, host.w);
      if ok { EndedBetween(m.id, old(host.w), before, host.w, host.w, blind, host.t.blind > old(host.t).blind); }
    }

    /** Whether the session's tmux session exists. */
    method HasSession(id: string) returns (alive: Option<bool>)
      requires Valid()
      requires host.holder == Some(id)
      modifies host`w, host`t, host`stage, host`path, host`turns
      ensures Valid() && Wanes(host.c, id, old(host.w), host.w)
      ensures host.t == old(host.t).(disturbed := host.t.disturbed, failures := host.t.failures) && Later(old(host.t), host.t)
      ensures host.stage == if alive == Some(false) then old(host.stage).(dead := true) else old(host.stage)
      ensures alive.Some? <==> host.t.failures == old(host.t).failures
      ensures alive == Some(false) ==> id !in host.w.tmux
      ensures alive.Some? ==> alive.value == (id in old(host.w).tmux)
      ensures Quiet(old(host.t), host.t) ==> host.w == old(host.w)
    {
      hide Traced, Latest;
      var failed := host.Fails();
      alive := if failed then None else Some(id in host.w.tmux);
      if alive == Some(false) {
        host.Look(id, SeeDead(id), host.stage.(dead := true));
      }
      host.Interfere(id);
    }

    method KillSession(id: string) returns (ok: bool)
      requires Valid()
      requires host.holder == Some(id)
      modifies host`w, host`t, host`stage, host`path, host`turns
      ensures Valid() && Ebbs(host.c, id, old(host.w), host.w)
      ensures host.t == old(host.t).(disturbed := host.t.disturbed, failures := host.t.failures) && Later(old(host.t), host.t)
      ensures ok <==> host.t.failures == old(host.t).failures
      ensures ok ==> id !in host.w.tmux && host.stage.dead
      ensures host.stage == old(host.stage).(dead := host.stage.dead)
    {
      hide Traced, Latest;
      var failed := host.Fails();
      if failed {
        if * {
          host.Interfere(id);
          return false;
        }
      }
      host.Kill(id);
      return !failed;
    }

    method KillTmuxIfPresent(id: string) returns (ok: bool)
      requires Valid()
      requires host.holder == Some(id)
      modifies host`w, host`t, host`stage, host`path, host`turns
      ensures Valid() && Ebbs(host.c, id, old(host.w), host.w)
      ensures host.t == old(host.t).(disturbed := host.t.disturbed, failures := host.t.failures) && Later(old(host.t), host.t)
      ensures ok <==> host.t.failures == old(host.t).failures
      ensures ok ==> id !in host.w.tmux && host.stage.dead
      ensures host.stage == old(host.stage).(dead := host.stage.dead)
    {
      hide Traced, Latest;
      var alive := HasSession(id);
      if alive.None? || !alive.value {
        return alive.Some?;
      }
      ghost var before := host.w;
      ok := KillSession(id);
      EbbsTransitive(host.c, id, old(host.w), before, host.w);
    }

    /** Takes the lock of a session; until then anything may have happened. */
    method Lock(id: string) returns (ok: bool)
      requires Valid()
      modifies host
      ensures Valid() && Extends(host.c, old(host.w), host.w)
      ensures host.t == old(host.t).(disturbed := host.t.disturbed, failures := host.t.failures) && Later(old(host.t), host.t)
      ensures ok <==> host.t.failures == old(host.t).failures
      ensures !ok ==> host.holder == None
      ensures ok ==> host.holder == Some(id) && !host.making && host.asked == {} && host.stage == AT_LOCK && OnlyWrote(host.turns)
      ensures host.t.disturbed == old(host.t).disturbed ==> host.w == old(host.w)
    {
      hide Traced, Latest;
      host.OthersAct();
      var failed := host.Fails();
      ok := !failed;
      if ok {
        host.Take(id);
      }
    }

    /** Terminates a session whose lock is held, if the caller's own check of its record agrees. */
    method TerminateLocked(id: string, expectedRef: string, verify: Session -> Result<()>) returns (r: Result<()>)
      requires Valid() && ValidId(id)
      requires !host.making && host.holder == Some(id)
      modifies host`w, host`t, host`stage, host`path, host`turns
      ensures Valid() && Orderly(host.c, id, old(host.w), host.w) && Later(old(host.t), host.t)
      ensures r.Ok? ==> id !in host.w.records && id !in host.w.tmux && Ended(id, old(host.w), host.w, host.t.blind > old(host.t).blind)
      ensures Good(host.c, old(host.w).records, id) && r.Err? ==> Good(host.c, host.w.records, id)
      ensures NoKill(id, old(host.w).kills, host.w.kills) || 
        (Consented(host.c, id, old(host.w), expectedRef, verify) && (r.Ok? || SeenGone(host.stage)))
      ensures r.Err? && host.t.failures == old(host.t).failures && r != Err(NotFound) ==> Objects(host.c, id, old(host.w), verify, r)
      ensures !Consented(host.c, id, old(host.w), expectedRef, verify) && OnlyWrote(old(host.turns)) ==> r.Err? && OnlyWrote(host.turns)
      ensures r == Err(NotFound) && Good(host.c, old(host.w).records, id) ==> !Agreed(old(host.w).records[id].session, expectedRef, verify)
      ensures !Good(host.c, old(host.w).records, id) ==> r.Err? && SameRecord(old(host.w).records, host.w.records, id)
      ensures Good(host.c, old(host.w).records, id) && Agreed(old(host.w).records[id].session, expectedRef, verify) ==>
        host.t.failures == old(host.t).failures ==> r.Ok?
    {
      hide Traced, Latest;
      var read := ReadManaged(id);
      match read
      case Missing => return Err(NotFound);
      case Invalid => return Err(NotFound);
      case Unreadable => return Err(Dependency);
      case Found(m) =>
        CanonicalRecordIsGood(host.c, host.w.records, m);
        if expectedRef != "" && m.publicRef != expectedRef {
          return Err(NotFound);
        }
        var verdict := verify(m);
        if verdict.Err? {
          return verdict;
        }
        ghost var before := host.w;
        ghost var tally := host.t;
        r := EndLocked(m);
        OrderlyTransitive(host.c, id, old(host.w), before, host.w);
        if r.Ok? { EndedBetween(id, old(host.w), before, host.w, host.w, host.t.blind > tally.blind, host.t.blind > old(host.t).blind); }
    }

    method EndLocked(m: Session) returns (r: Result<()>)
      requires Valid() && Canonical(host.c.stateDir, m) && StoredAs(host.w.records, m)
      requires !host.making && host.holder == Some(m.id)
      modifies host`w, host`t, host`stage, host`path, host`turns
      ensures Valid() && Orderly(host.c, m.id, old(host.w), host.w) && Later(old(host.t), host.t)
      ensures NoKill(m.id, old(host.w).kills, host.w.kills) || r.Ok? || SeenGone(host.stage)
      ensures r.Ok? <==> host.t.failures == old(host.t).failures
      ensures r.Err? ==> r.kind == Dependency && Good(host.c, host.w.records, m.id)
      ensures r.Ok? ==> m.id !in host.w.records && m.id !in host.w.tmux && Ended(m.id, old(host.w), host.w, host.t.blind > old(host.t).blind)
    {
      hide Traced, Latest;
      var ok := bridge.Stop(m);
      CanonicalRecordIsGood(host.c, host.w.records, m);
      if !ok {
        return Err(Dependency);
      }
      ghost var stopped := host.w;
      ok := KillTmuxIfPresent(m.id);
      ghost var before := host.w;
      EbbsTransitive(host.c, m.id, old(host.w), stopped, before);
      BridgesWane(host.c, m, stopped.processes, before.processes, before.starts);
      if !ok {
        CanonicalRecordIsGood(host.c, host.w.records, m);
        return Err(Dependency);
      }
      ghost var blind := host.stage.blind;
      ok := RemoveArtifacts(m);
      OrderlyTransitive(host.c, m.id, old(host.w), before, host.w);
      if ok { EndedBetween(m.id, old(host.w), before, host.w, host.w, blind, host.t.blind > old(host.t).blind); }
      if !ok {
        CanonicalRecordIsGood(host.c, host.w.records, m);
      }
      return if ok then Ok(()) else Err(Dependency);
    }

    /** Ends a session: bridge, tmux session, files and only then the record. */
    method TerminateChecked(id: string, expectedRef: string, verify: Session -> Result<()>) returns (r: Result<()>, ghost locked: World)
      requires Valid()
      modifies host
      ensures Valid() && Extends(host.c, old(host.w), locked) && Orderly(host.c, id, locked, host.w) && Later(old(host.t), host.t)
      ensures host.t.disturbed == old(host.t).disturbed ==> locked == old(host.w)
      ensures !ValidId(id) ==> r == Err(InvalidName) && host.w == old(host.w)
      ensures r.Ok? ==> id !in host.w.records && id !in host.w.tmux && Ended(id, locked, host.w, host.t.blind > old(host.t).blind)
      ensures r.Err? && Good(host.c, locked.records, id) ==> Good(host.c, host.w.records, id)
      ensures NoKill(id, locked.kills, host.w.kills) || (Consented(host.c, id, locked, expectedRef, verify) && (r.Ok? || SeenGone(host.stage)))
      ensures r.Err? && ValidId(id) && host.t.failures == old(host.t).failures && r != Err(NotFound) ==> Objects(host.c, id, locked, verify, r)
      ensures !Consented(host.c, id, locked, expectedRef, verify) ==> r.Err? && (!ValidId(id) || host.holder == None || OnlyWrote(host.turns))
      ensures r == Err(NotFound) && Good(host.c, locked.records, id) ==> !Agreed(locked.records[id].session, expectedRef, verify)
      ensures ValidId(id) && Good(host.c, locked.records, id) && Agreed(locked.records[id].session, expectedRef, verify) ==>
        host.t.failures == old(host.t).failures ==> r.Ok?
    {
      hide Traced, Latest, Good, Ended;
      locked := host.w;
      ExtendsReflexive(host.c, host.w);
      if !ValidId(id) {
        return Err(InvalidName), locked;
      }
      var ok := Lock(id);
      locked := host.w;
      ExtendsReflexive(host.c, host.w);
      if !ok {
        return Err(Dependency), locked;
      }
      r := TerminateLocked(id, expectedRef, verify);
    }

    // ----- Keeping a session's bridge

    /** A tmux command that changes nothing of what is modelled here. */
    method Configure(id: string, setting: Setting) returns (ok: bool)
      requires Valid()
      requires host.holder == Some(id)
      modifies host`w, host`t, host`asked, host`stage, host`path, host`turns
      ensures Valid() && Wanes(host.c, id, old(host.w), host.w)
      ensures host.t == old(host.t).(disturbed := host.t.disturbed, failures := host.t.failures) && Later(old(host.t), host.t)
      ensures old(host.asked) <= host.asked && (ok ==> Effect.Configure(setting) in host.asked && Latest(id, Effect.Configure(setting), host.turns))
      ensures ok <==> host.t.failures == old(host.t).failures
      ensures BeginTmux in host.asked <==> BeginTmux in old(host.asked)
      ensures Quiet(old(host.t), host.t) ==> host.w == old(host.w)
    {
      hide Traced, Latest;
      var failed := host.Fails();
      if failed {
        if * {
          host.Ask(id, Effect.Configure(setting));
        } else {
          host.Interfere(id);
        }
      } else {
        host.Ask(id, Effect.Configure(setting));
      }
      ok := !failed;
    }

    method EnsureConfigured(m: Session) returns (r: Result<int>, ghost keep: int)
      requires Valid() && Canonical(host.c.stateDir, m)
      requires host.holder == Some(m.id)
      modifies host`w, host`t, host`asked, host`stage, host`path, host`turns
      ensures Valid() && Holds(host.c, m.id, old(host.w), host.w) && Later(old(host.t), host.t) && host.t.writes == old(host.t).writes
      ensures r.Ok? ==> r.value > 1 && host.t.failures == old(host.t).failures && host.t.reported == r.value
      ensures r.Err? ==> host.t.failures > old(host.t).failures || |m.socket| > MAX_SOCKET_PATH
      ensures r.Ok? && host.t.blind == old(host.t).blind ==> OnlyBridge(host.c, m, host.w.processes, r.value)
      ensures r.Err? ==> r.kind == Dependency || r.kind == BridgeIncomplete
      ensures r.Ok? ==> {Effect.Configure(History), Effect.Configure(WindowSize)} <= host.asked
      ensures r.Ok? ==> Latest(m.id, Effect.Configure(AgentSocket), host.turns)
      ensures BeginTmux in host.asked <==> BeginTmux in old(host.asked)
      ensures Quiet(old(host.t), host.t) ==> Tended(host.c, m, old(host.w), keep, r, host.w)
    {
      hide Traced, Latest;
      keep := 0;
      var ok := Configure(m.id, History);
      if !ok {
        return Err(Dependency), keep;
      }
      ghost var a := host.w;
      ok := Configure(m.id, WindowSize);
      WanesTransitive(host.c, m.id, old(host.w), a, host.w);
      if !ok {
        return Err(Dependency), keep;
      }
      ghost var b := host.w;
      r, keep := bridge.Ensure(m);
      HoldsTransitive(host.c, m.id, old(host.w), b, host.w);
      if r.Err? {
        return;
      }
      ghost var d := host.w;
      ok := Configure(m.id, AgentSocket);
      HoldsTransitive(host.c, m.id, old(host.w), d, host.w);
      if !ok {
        r := Err(Dependency);
        return;
      }
      if host.t.blind == old(host.t).blind {
        OnlyBridgeStays(host.c, m, d.processes, host.w.processes, r.value, host.w.starts);
      }
    }

    /** What a live session returns: its stored canonical record, with the PID of its bridge. */
    method EnsureBridgeLocked(m: Session) returns (r: Result<Session>, ghost keep: int)
      requires Valid() && Canonical(host.c.stateDir, m) && StoredAs(host.w.records, m)
      requires host.holder == Some(m.id)
      modifies host`w, host`t, host`asked, host`stage, host`path, host`turns
      ensures Valid() && Keeps(host.c, m.id, old(host.w), host.w) && Later(old(host.t), host.t)
      ensures SameTmux(m.id, old(host.w), host.w)
      ensures r.Ok? ==>
        && r.value == m.(pid := r.value.pid) && r.value.pid > 1 && Canonical(host.c.stateDir, r.value)
        && StoredAs(host.w.records, r.value) && host.t.failures == old(host.t).failures && r.value.pid == host.t.reported
        && (host.t.blind == old(host.t).blind ==> OnlyBridge(host.c, r.value, host.w.processes, r.value.pid))
      ensures r.Err? ==> Good(host.c, host.w.records, m.id) && (host.t.failures > old(host.t).failures || |m.socket| > MAX_SOCKET_PATH)
      ensures r.Err? ==> r.kind == Dependency || r.kind == BridgeIncomplete
      ensures r.Ok? ==> Dressed(m.id, host.turns)
      ensures BeginTmux in host.asked <==> BeginTmux in old(host.asked)
      ensures Quiet(old(host.t), host.t) ==> LocalTo(m.id, old(host.w), host.w)
      ensures Quiet(old(host.t), host.t) && r.Err? ==> Chosen(host.c, m, old(host.w), 0)
      ensures Quiet(old(host.t), host.t) && r.Ok? ==>
        && host.w.records == old(host.w).records[m.id := Record(r.value)]
        && Tended(host.c, m, old(host.w).(records := host.w.records), keep, Ok(r.value.pid), host.w)
        && host.t.writes == old(host.t).writes + (if r.value.pid == m.pid then 0 else 1)
    {
      hide Traced, Latest, KindIn, Serves, Tended, OnlyBridge, Canonical, Chosen, Good, Sound;
      var found: Result<int>;
      found, keep := EnsureConfigured(m);
      ghost var ensured, tally := host.w, host.t;
      if Quiet(old(host.t), host.t) { TendedFrame(host.c, m, old(host.w), keep, found, host.w); }
      StoredStays(host.c, m, old(host.w), host.w);
      if found.Err? {
        CanonicalRecordIsGood(host.c, host.w.records, m);
        return Err(found.kind), keep;
      }
      r := Register(m, found.value, host.t.blind == old(host.t).blind);
      TracedMaking(host.c, m.id, host.making, host.asked, host.stage, host.path, host.turns, host.w);
      KeepsTransitive(host.c, m.id, old(host.w), ensured, host.w);
      SameTmuxTransitive(m.id, old(host.w), ensured, host.w);
      if Quiet(old(host.t), host.t) {
        assert Quiet(old(host.t), tally);
        TendedAnyRecords(host.c, m, old(host.w), keep, found, ensured, host.w.records);
      }
    }

    /** Stores the PID of a session's bridge, unless it is the one already stored. */
    method Register(m: Session, pid: int, ghost seesAll: bool) returns (r: Result<Session>)
      requires Valid() && Canonical(host.c.stateDir, m) && StoredAs(host.w.records, m) && pid > 1
      requires seesAll ==> OnlyBridge(host.c, m, host.w.processes, pid)
      requires host.holder == Some(m.id)
      modifies host`w, host`t, host`stage, host`path, host`turns
      ensures Valid() && Keeps(host.c, m.id, old(host.w), host.w) && Later(old(host.t), host.t) && host.t.blind == old(host.t).blind
      ensures SameTmux(m.id, old(host.w), host.w)
      ensures host.t.reported == old(host.t).reported
      ensures r.Ok? <==> host.t.failures == old(host.t).failures
      ensures r.Ok? ==>
        && r.value == m.(pid := pid) && Canonical(host.c.stateDir, r.value) && StoredAs(host.w.records, r.value)
        && (seesAll ==> OnlyBridge(host.c, r.value, host.w.processes, pid))
        && host.t.writes == old(host.t).writes + (if pid == m.pid then 0 else 1)
      ensures r.Err? ==> r.kind == Dependency && Good(host.c, host.w.records, m.id)
      ensures forall e :: Latest(m.id, e, old(host.turns)) ==> Latest(m.id, e, host.turns)
      ensures Quiet(old(host.t), host.t) ==> host.w == old(host.w).(records := old(host.w).records[m.id := Record(m.(pid := pid))])
    {
      hide Traced, Latest, KindIn, Serves, OnlyBridge, Canonical, Good, Sound;
      SoundProcesses(host.w);
      if seesAll { PidRegistered(host.c, m, host.w.processes, host.w.starts, pid); }
      PidKeepsCanonical(host.c.stateDir, m, pid);
      CanonicalRecordIsGood(host.c, host.w.records, m);
      var managed := m.(pid := pid);
      if m.pid == pid {
        assert host.w.records[m.id := Record(m)] == host.w.records;
        return Ok(managed);
      }
      var ok := Write(managed);
      if StoredAs(host.w.records, managed) {
        CanonicalRecordIsGood(host.c, host.w.records, managed);
      } else {
        GoodDepends(host.c, old(host.w).records, host.w.records, m.id);
      }
      if !ok {
        return Err(Dependency);
      }
      SoundProcesses(host.w);
      if seesAll { OnlyBridgeStays(host.c, managed, old(host.w).processes, host.w.processes, pid, host.w.starts); }
      return Ok(managed);
    }

    /** Looks a session up under its lock, and cleans up after one whose tmux session has died. */
    method ResolveLocked(id: string) returns (r: Resolved)
      requires Valid() && ValidId(id)
      requires !host.making && host.holder == Some(id)
      modifies host`w, host`t, host`stage, host`path, host`turns
      ensures Valid() && Keeps(host.c, id, old(host.w), host.w) && Later(old(host.t), host.t)
      ensures SameTmux(id, old(host.w), host.w)
      ensures ResolvedOk(host.c, id, old(host.w), old(host.t), r, host.w, host.t)
    {
      hide Traced, Latest, OwnEbbs, NoKill, NoNewBridges, Canonical, Compatible, ValidId, KindIn, Sound, Good, GoodOrLogged;
      hide NoRollback, Ended, Bridges, Keeps, SameTmux, LocalTo, UpToDate, Extends;
      var read := ReadManaged(id);
      RecordIsLocal(id, old(host.w), if read.Found? then Record(read.managed) else Garbage);
      if read.Missing? || read.Invalid? { WanesLeaves(host.c, id, old(host.w), host.w); }
      match read
      case Missing => return NoRecord;
      case Invalid => return BadRecord;
      case Unreadable => return Failed;
      case Found(m) =>
        ghost var a := host.w;
        var alive := HasSession(id);
        ghost var b := host.w;
        WanesLeaves(host.c, id, a, b);
        StoredStays(host.c, m, a, b);
        CanonicalRecordIsGood(host.c, host.w.records, m);
        KeepsSameTmux(host.c, id, old(host.w), a, b);
        if alive.None? {
          return Failed;
        }
        if alive.value {
          return Live(m);
        }
        var ok := CleanupLocked(m);
        KeepsSameTmux(host.c, id, old(host.w), b, host.w);
        if Quiet(old(host.t), host.t) { LocalToTransitive(id, old(host.w), b, host.w); }
        if !ok {
          CanonicalRecordIsGood(host.c, host.w.records, m);
          return NotCleaned;
        }
        EndedBetween(id, old(host.w), b, host.w, host.w, host.t.blind > old(host.t).blind, host.t.blind > old(host.t).blind);
        return Cleaned;
    }

    method EnsureBridge(id: string) returns (r: Result<Session>, ghost locked: World)
      requires Valid()
      modifies host
      ensures Valid() && Extends(host.c, old(host.w), locked) && Keeps(host.c, id, locked, host.w) && Later(old(host.t), host.t)
      ensures host.t.disturbed == old(host.t).disturbed ==> locked == old(host.w)
      ensures !ValidId(id) ==> r == Err(InvalidName) && host.w == old(host.w)
      ensures r.Ok? ==> Returned(host.c, id, r.value, host.w, host.t.blind == old(host.t).blind) && r.value.pid == host.t.reported
      ensures r.Ok? ==> Good(host.c, locked.records, id) && SameSession(locked.records[id].session, r.value)
      ensures r.Ok? ==> Dressed(id, host.turns)
      ensures Quiet(old(host.t), host.t) ==> LocalTo(id, old(host.w), host.w)
      ensures r == Err(NotFound) ==> !Good(host.c, locked.records, id) || id !in host.w.tmux
      ensures Kept(host.c, id, locked, host.w, host.t.blind > old(host.t).blind)
      ensures Good(host.c, locked.records, id) && !Good(host.c, host.w.records, id) ==> r == Err(NotFound) && id !in host.w.tmux
      ensures Quiet(old(host.t), host.t) && ValidId(id) ==>
        if Good(host.c, old(host.w).records, id) && id in old(host.w).tmux then r.Ok? || |ExpectedSocket(host.c.stateDir, id)| > 100
        else r == Err(NotFound) && !Good(host.c, host.w.records, id)
    {
      hide Traced, Latest, Canonical, Compatible, KindIn, Sound, Good, Tended, OnlyBridge, Ended;
      locked := host.w;
      ExtendsReflexive(host.c, host.w);
      if !ValidId(id) {
        return Err(InvalidName), locked;
      }
      var ok := Lock(id);
      locked := host.w;
      ExtendsReflexive(host.c, host.w);
      if !ok {
        return Err(Dependency), locked;
      }
      var found := ResolveLocked(id);
      ghost var resolved := host.w;
      match found
      case Failed => return Err(Dependency), locked;
      case Live(m) =>
        CanonicalSocket(host.c.stateDir, m);
        ghost var keep;
        r, keep := EnsureBridgeLocked(m);
        KeepsTransitive(host.c, id, locked, resolved, host.w);
        if Quiet(old(host.t), host.t) { LocalToTransitive(id, locked, resolved, host.w); }
        if r.Ok? { CanonicalRecordIsGood(host.c, host.w.records, r.value); }
      case NotCleaned => return Err(NotFound), locked;
      case _ =>
        GoodDepends(host.c, locked.records, host.w.records, id);
        return Err(NotFound), locked;
    }

    /** The session handed to the caller, who keeps the lock while using it. */
    method WithSession(id: string) returns (r: Result<Session>, ghost locked: World)
      requires Valid()
      modifies host
      ensures Valid() && Extends(host.c, old(host.w), locked) && Keeps(host.c, id, locked, host.w) && Later(old(host.t), host.t)
      ensures host.t.disturbed == old(host.t).disturbed ==> locked == old(host.w)
      ensures !ValidId(id) ==> r == Err(InvalidName) && host.w == old(host.w)
      ensures r.Ok? ==> Canonical(host.c.stateDir, r.value) && r.value.id == id && StoredAs(host.w.records, r.value)
      ensures r.Ok? ==> Good(host.c, locked.records, id) && UpToDate(locked.records[id].session, r.value)
      ensures Quiet(old(host.t), host.t) ==> LocalTo(id, old(host.w), host.w)
      ensures r == Err(NotFound) ==> !Good(host.c, locked.records, id) || id !in host.w.tmux
      ensures Kept(host.c, id, locked, host.w, host.t.blind > old(host.t).blind)
      ensures Good(host.c, locked.records, id) && !Good(host.c, host.w.records, id) ==> r == Err(NotFound) && id !in host.w.tmux
      ensures Quiet(old(host.t), host.t) && ValidId(id) ==>
        if Good(host.c, old(host.w).records, id) && id in old(host.w).tmux then r.Ok? && UpToDate(old(host.w).records[id].session, r.value)
        else r == Err(NotFound) && !Good(host.c, host.w.records, id)
    {
      hide Traced, Latest, Canonical, Compatible, KindIn, Sound, Good, Ended;
      locked := host.w;
      ExtendsReflexive(host.c, host.w);
      if !ValidId(id) {
        return Err(InvalidName), locked;
      }
      var ok := Lock(id);
      locked := host.w;
      ExtendsReflexive(host.c, host.w);
      if !ok {
        return Err(Dependency), locked;
      }
      var found := ResolveLocked(id);
      match found
      case Failed => return Err(Dependency), locked;
      case Live(m) =>
        CanonicalRecordIsGood(host.c, host.w.records, m);
        return Ok(m), locked;
      case NotCleaned => return Err(NotFound), locked;
      case _ =>
        GoodDepends(host.c, locked.records, host.w.records, id);
        return Err(NotFound), locked;
    }

    method ReconcileLocked(id: string) returns (r: Result<Option<Session>>, ghost read: Session, ghost keep: int)
      requires Valid() && ValidId(id)
      requires !host.making && host.holder == Some(id)
      modifies host`w, host`t, host`asked, host`stage, host`path, host`turns
      ensures Valid() && Keeps(host.c, id, old(host.w), host.w) && Later(old(host.t), host.t)
      ensures r.Ok? && r.value.Some? ==> Dressed(id, host.turns)
      ensures ReconciledOk(host.c, id, old(host.w), old(host.t), r, host.w, host.t)
      ensures Quiet(old(host.t), host.t) && r.Ok? && r.value.Some? ==>
        ReconciledAs(host.c, id, old(host.w), old(host.t), read, keep, r.value.value, host.w, host.t)
      ensures Quiet(old(host.t), host.t) && r.Err? && Good(host.c, old(host.w).records, id) ==> FailedToStart(host.c, id, old(host.w), read)
    {
      hide Traced, Latest, Canonical, Compatible, KindIn, Sound, Good, Tended, OnlyBridge;
      read, keep := Session("", "", "", "", "", 0, "", ""), 0;
      var found := ResolveLocked(id);
      ghost var resolved := host.w;
      match found
      case NoRecord =>
        GoodDepends(host.c, old(host.w).records, host.w.records, id);
        r := Ok(None);
      case Cleaned => r := Ok(None);
      case Live(m) =>
        CanonicalSocket(host.c.stateDir, m);
        read := m;
        var ensured;
        ensured, keep := EnsureBridgeLocked(m);
        KeepsTransitive(host.c, id, old(host.w), resolved, host.w);
        if Quiet(old(host.t), host.t) {
          LocalToTransitive(id, old(host.w), resolved, host.w);
          SameSight(host.c, m, old(host.w), resolved);
        }
        r := if ensured.Ok? then Ok(Some(ensured.value)) else Err(ensured.kind);
      case _ => r := Err(Dependency);
    }

    method ReconcileOne(id: string) returns (r: Result<Option<Session>>, ghost locked: World, ghost read: Session, ghost keep: int)
      requires Valid() && ValidId(id)
      modifies host
      ensures Valid() && Extends(host.c, old(host.w), locked) && Keeps(host.c, id, locked, host.w) && Later(old(host.t), host.t)
      ensures host.t.disturbed == old(host.t).disturbed ==> locked == old(host.w)
      ensures r.Ok? && r.value.Some? ==> Dressed(id, host.turns)
      ensures ReconciledOk(host.c, id, locked, old(host.t), r, host.w, host.t)
      ensures Quiet(old(host.t), host.t) && r.Ok? && r.value.Some? ==>
        ReconciledAs(host.c, id, old(host.w), old(host.t), read, keep, r.value.value, host.w, host.t)
      ensures Quiet(old(host.t), host.t) && r.Err? && Good(host.c, old(host.w).records, id) ==> FailedToStart(host.c, id, old(host.w), read)
    {
      hide Traced, Latest, Canonical, Compatible, KindIn, Sound, Good, Tended, OnlyBridge;
      read, keep := Session("", "", "", "", "", 0, "", ""), 0;
      var ok := Lock(id);
      locked := host.w;
      ghost var tally := host.t;
      ExtendsReflexive(host.c, host.w);
      if !ok {
        r := Err(Dependency);
        return;
      }
      r, read, keep := ReconcileLocked(id);
      SameReckoning(host.c, id, locked, tally, old(host.t), r, host.w, host.t);
    }

    /** The sessions with a good record; one that cannot be read just now is passed over. */
    method ListCompatible() returns (r: Option<seq<string>>)
      requires Valid()
      modifies host`t
      ensures Later(old(host.t), host.t) && host.t.disturbed == old(host.t).disturbed && host.t.blind == old(host.t).blind
      ensures r.None? ==> host.t.failures > old(host.t).failures
      ensures r.Some? ==> (forall id :: id in r.value ==> Good(host.c, host.w.records, id)) && NoRepeat(r.value)
      ensures host.t.failures == old(host.t).failures ==> r.Some? && forall id :: Good(host.c, host.w.records, id) ==> id in r.value
    {
      hide Traced, Latest, Compatible;
      var failed := host.Fails();
      if failed {
        return None;
      }
      var ids: seq<string> := [];
      var left := host.w.records.Keys;
      while left != {}
        invariant left <= host.w.records.Keys
        invariant Later(old(host.t), host.t) && host.t.disturbed == old(host.t).disturbed && host.t.blind == old(host.t).blind
        invariant NoRepeat(ids) && forall id :: id in ids ==> id !in left && Good(host.c, host.w.records, id)
        invariant host.t.failures == old(host.t).failures ==>
          forall id :: id in host.w.records && id !in left && Good(host.c, host.w.records, id) ==> id in ids
        decreases left
      {
        var id :| id in left;
        left := left - {id};
        failed := host.Fails();
        if !failed && Good(host.c, host.w.records, id) {
          ids := ids + [id];
        }
      }
      return Some(ids);
    }

    /** Reconciling twice in a row. */
    method ReconcileTwice(id: string) returns (first: Result<Option<Session>>, second: Result<Option<Session>>,
                                               ghost between: World, ghost writesBetween: nat, ghost read: Session, ghost keep: int)
      requires Valid() && ValidId(id)
      modifies host
      ensures Quiet(old(host.t), host.t) && first.Ok? && first.value.Some? ==>
        && Canonical(host.c.stateDir, read) && read.id == id && (keep != 0 ==> id in old(host.w).listeners)
        && (Ready(between, id) <==> keep == 0 || !CutsOff(host.c, read, old(host.w), keep))
        && (Ready(between, id) ==> second == first && host.w == between && host.t.writes == writesBetween)
        && (!Ready(between, id) && second.Ok? ==> second.value.Some? && !SameBridge(first.value.value, between, second.value.value, host.w))
    {
      hide Traced, Latest, Canonical, Compatible, KindIn, Sound, Good, Tended, OnlyBridge;
      ghost var locked, keep2, read2;
      first, locked, read, keep := ReconcileOne(id);
      between, writesBetween := host.w, host.t.writes;
      ghost var tally := host.t;
      second, locked, read2, keep2 := ReconcileOne(id);
      if Quiet(old(host.t), host.t) && first.Ok? && first.value.Some? {
        TwicePasses(host.c, id, old(host.w), old(host.t), read, keep, first.value.value, between, tally,
                    second, read2, keep2, host.w, host.t);
      }
    }

    /** Reconciles every listed session, each under its own lock (`rounds`). Left alone, it
        settles everything: afterwards exactly the live sessions have good records, and exactly
        those are answered. */
    method Reconcile() returns (r: Result<seq<Session>>, ghost rounds: seq<Round>)
      requires Valid()
      modifies host
      ensures Valid() && Extends(host.c, old(host.w), host.w) && Later(old(host.t), host.t)
      ensures Chained(old(host.w), rounds, host.w)
      ensures forall i :: 0 <= i < |rounds| ==> RoundOk(host.c, old(host.w), old(host.t), rounds[i], host.w, host.t)
      ensures host.t.failures == old(host.t).failures ==> forall id :: Good(host.c, old(host.w).records, id) ==> LookedAt(rounds, id)
      ensures r.Err? ==> r.kind == Dependency
      ensures r.Ok? ==> r.value == Answers(rounds) && forall i :: 0 <= i < |rounds| ==> rounds[i].answer.Ok?
      ensures Quiet(old(host.t), host.t) && ShortSockets(host.c, old(host.w).records) ==>
        && r.Ok? && (forall i :: 0 <= i < |r.value| ==> StoredAs(host.w.records, r.value[i]))
        && (forall id :: Good(host.c, host.w.records, id) <==> Good(host.c, old(host.w).records, id) && id in old(host.w).tmux)
        && (forall id :: Good(host.c, host.w.records, id) <==> Answered(r.value, id))
    {
      hide Traced, Latest, Canonical, Compatible, KindIn, OnlyBridge, Sound, ValidId, Good, Settled, RoundOk;
      hide ReconciledOk, NoRollback, Underway, Extends;
      rounds := [];
      ExtendsReflexive(host.c, host.w);
      ghost var w0, t0 := host.w, host.t;
      var ids := ListCompatible();
      if ids.None? {
        return Err(Dependency), rounds;
      }
      var sessions: seq<Session>, failed := [], false;
      ghost var listed, t1 := ids.value, host.t;
      assert forall id :: id in listed ==> Good(host.c, w0.records, id);
      assert t1.failures == t0.failures ==> forall id :: Good(host.c, w0.records, id) ==> id in listed;
      NoneUnderway(host.c, w0, t0, listed, t1);
      for i := 0 to |ids.value|
        invariant Valid() && Later(t0, host.t) && Later(t1, host.t) && |rounds| == i
        invariant Underway(host.c, w0, t0, listed, rounds, sessions, failed, host.w, host.t)
      {
        ghost var before, tally := host.w, host.t;
        var id := ids.value[i];
        GoodId(host.c, w0.records, id);
        var one; ghost var locked, read, keep;
        one, locked, read, keep := ReconcileOne(id);
        ghost var round := Round(id, before, locked, tally, one, host.w, host.t);
        RoundGoesOn(host.c, w0, t0, listed, rounds, sessions, failed, before, tally, round);
        if one.Err? {
          failed := true;
        } else if one.value.Some? {
          sessions := sessions + [one.value.value];
        }
        rounds := rounds + [round];
      }
      RoundsDone(host.c, w0, t0, listed, rounds, sessions, failed, host.w, host.t);
      return if failed then Err(Dependency) else Ok(sessions), rounds;
    }

    // ----- Creating a session

    /** Undoes what a failed create has done so far, as far as that succeeds. */
    method CleanupNewSession(m: Session) returns (ok: bool)
      requires Valid() && Placed(host.c, m) && ValidId(m.id)
      requires host.making && host.holder == Some(m.id)
      modifies host`w, host`t, host`stage, host`path, host`turns
      ensures Valid() && Extends(host.c, old(host.w), host.w) && Later(old(host.t), host.t)
      ensures ok <==> host.t.failures == old(host.t).failures
      ensures SameTmux(m.id, old(host.w), host.w)
      ensures ok ==> m.id !in host.w.records && m.id !in host.w.tmux
      ensures ok && host.t.blind == old(host.t).blind ==> Bridges(host.c, m, host.w.processes) == {}
    {
      hide Traced, Latest, Canonical, Compatible, KindIn, Sound;
      var stopped := bridge.Stop(m);
      ghost var a := host.w;
      var killed := KillTmuxIfPresent(m.id);
      ghost var b := host.w;
      EbbsTransitive(host.c, m.id, old(host.w), a, b);
      var removed := RemoveArtifacts(m);
      ExtendsTransitive(host.c, old(host.w), b, host.w);
      SameTmuxTransitive(m.id, old(host.w), b, host.w);
      ok := stopped && killed && removed;
      if ok && host.t.blind == old(host.t).blind {
        NoBridgesStay(host.c, m, a, b, host.w);
      }
    }

    /** Starts the bridge of a session just made and writes its record, or undoes everything. */
    method BringUp(m: Session) returns (r: Result<Session>, ghost undone: bool)
      requires Valid() && Canonical(host.c.stateDir, m)
      requires host.making && host.holder == Some(m.id)
      modifies host`w, host`t, host`stage, host`path, host`turns
      ensures Valid() && Extends(host.c, old(host.w), host.w) && Later(old(host.t), host.t)
      ensures r.Ok? ==> Returned(host.c, m.id, r.value, host.w, host.t.blind == old(host.t).blind)
      ensures r.Ok? ==> r.value == m.(pid := r.value.pid) && host.t.failures == old(host.t).failures && r.value.pid == host.t.reported
      ensures SameTmux(m.id, old(host.w), host.w)
      ensures Quiet(old(host.t), host.t) && r.Ok? ==> host.w.tmux == old(host.w).tmux
      ensures r.Err? ==> host.t.failures > old(host.t).failures || |m.socket| > MAX_SOCKET_PATH
      ensures r.Err? ==> r.kind == Dependency || r.kind == BridgeIncomplete
      ensures r.Err? && !undone ==> TwoFailures(old(host.t), host.t, |m.socket| > MAX_SOCKET_PATH)
      ensures r.Err? && undone ==> m.id !in host.w.records && m.id !in host.w.tmux
    {
      hide Traced, Latest, Canonical, Compatible, KindIn, Tended, OnlyBridge, Serves;
      undone := false;
      CanonicalId(host.c.stateDir, m);
      var found: Result<int>; ghost var keep;
      found, keep := bridge.Ensure(m);
      ghost var ensured := host.w;
      if Quiet(old(host.t), host.t) { TendedFrame(host.c, m, old(host.w), keep, found, host.w); }
      if found.Err? {
        var ok := CleanupNewSession(m);
        undone := ok;
        ExtendsTransitive(host.c, old(host.w), ensured, host.w);
        SameTmuxTransitive(m.id, old(host.w), ensured, host.w);
        return Err(found.kind), undone;
      }
      if host.t.blind == old(host.t).blind {
        PidRegistered(host.c, m, host.w.processes, host.w.starts, found.value);
      }
      PidKeepsCanonical(host.c.stateDir, m, found.value);
      var managed := m.(pid := found.value);
      CanonicalId(host.c.stateDir, managed);
      var ok := Write(managed);
      ghost var written := host.w;
      ExtendsTransitive(host.c, old(host.w), ensured, written);
      SameTmuxTransitive(m.id, old(host.w), ensured, written);
      if !ok {
        ok := CleanupNewSession(managed);
        undone := ok;
        ExtendsTransitive(host.c, old(host.w), written, host.w);
        SameTmuxTransitive(m.id, old(host.w), written, host.w);
        return Err(Dependency), undone;
      }
      if host.t.blind == old(host.t).blind {
        OnlyBridgeStays(host.c, managed, ensured.processes, host.w.processes, managed.pid, host.w.starts);
      }
      return Ok(managed), undone;
    }

    /** Asks tmux for a new session, which may have begun although it failed. */
    method CreateTmux(id: string) returns (ok: bool)
      requires Valid() && id !in host.w.tmux && host.holder == Some(id)
      modifies host`w, host`t, host`asked, host`stage, host`path, host`turns
      ensures Valid() && Extends(host.c, old(host.w), host.w) && Later(old(host.t), host.t)
      ensures NoKill(id, old(host.w).kills, host.w.kills)
      ensures ok ==> BeginTmux in host.asked && (host.t.disturbed == old(host.t).disturbed ==> id in host.w.tmux)
      ensures id in host.w.tmux ==> host.w.tmux[id] >= old(host.w).births
      ensures host.t.blind == old(host.t).blind && (ok <==> host.t.failures == old(host.t).failures)
    {
      hide Traced, Latest, GoodOrLogged, NoNewBridges, NoNewFiles, NoNewListener, Sound;
      var failed := host.Fails();
      if failed {
        if * {
          host.Ask(id, BeginTmux);
        } else {
          host.Interfere(id);
        }
        return false;
      }
      host.Ask(id, BeginTmux);
      return true;
    }

    /** Makes a session under a name that has no good record. A tmux session that already has
        the name is left alone. */
    method MakeSession(id: string, createdAt: string) returns (r: Result<Session>, ghost undone: bool)
      requires Valid() && ValidId(id)
      requires !Good(host.c, host.w.records, id) && host.holder == Some(id) && BeginTmux !in host.asked
      modifies host`w, host`t, host`stage, host`path, host`turns, host`making, host`asked
      ensures Valid() && Extends(host.c, old(host.w), host.w) && Later(old(host.t), host.t)
      ensures r.Ok? ==> Returned(host.c, id, r.value, host.w, host.t.blind == old(host.t).blind) && r.value.pid == host.t.reported
      ensures r.Ok? ==> id !in old(host.w).tmux && MadeFor(host.c, id, createdAt, r.value) && BeginTmux in host.asked
      ensures r.Ok? && id in host.w.tmux ==> host.w.tmux[id] >= old(host.w).births
      ensures Quiet(old(host.t), host.t) && r.Ok? ==> id in host.w.tmux
      ensures KillsOnlyMade(id, old(host.w).births, old(host.w).kills, host.w.kills)
      ensures r.Err? ==> r.kind == Dependency || r.kind == BridgeIncomplete || r.kind == Conflict
      ensures r == Err(Conflict) ==> id in old(host.w).tmux && Wanes(host.c, id, old(host.w), host.w)
      ensures Quiet(old(host.t), host.t) ==>
        if id in old(host.w).tmux then r == Err(Conflict) && host.w == old(host.w)
        else r.Ok? || |ExpectedSocket(host.c.stateDir, id)| > MAX_SOCKET_PATH
      ensures r.Err? && BeginTmux in host.asked && !undone ==>
        TwoFailures(old(host.t), host.t, |ExpectedSocket(host.c.stateDir, id)| > MAX_SOCKET_PATH)
      ensures r.Err? && undone ==> id !in host.w.tmux
    {
      hide Traced, Latest, Canonical, Compatible, KindIn, Sound, OnlyBridge, GoodOrLogged, NoNewBridges, NoNewFiles, NoNewListener, Untouched;
      undone := false;
      host.SeeNoRecord(id);
      var exists_ := HasSession(id);
      ghost var a := host.w;
      if exists_.None? {
        return Err(Dependency), undone;
      }
      if exists_.value {
        return Err(Conflict), undone;
      }
      var ok := CreateTmux(id);
      ghost var b := host.w;
      NoKillBetween(id, old(host.w), a, b);
      ExtendsTransitive(host.c, old(host.w), a, b);
      if !ok {
        ok := KillTmuxIfPresent(id);
        undone := ok;
        ExtendsTransitive(host.c, old(host.w), b, host.w);
        MadeAndKilled(id, old(host.w), b, host.w);
        return Err(Dependency), undone;
      }
      r, undone := FillIn(id, createdAt);
      ExtendsTransitive(host.c, old(host.w), b, host.w);
      MadeAndKilled(id, old(host.w), b, host.w);
    }

    method FillIn(id: string, createdAt: string) returns (r: Result<Session>, ghost undone: bool)
      requires Valid() && ValidId(id)
      requires host.making && host.holder == Some(id)
      modifies host`w, host`t, host`stage, host`path, host`turns
      ensures Valid() && Extends(host.c, old(host.w), host.w) && Later(old(host.t), host.t)
      ensures r.Ok? ==> Returned(host.c, id, r.value, host.w, host.t.blind == old(host.t).blind) && r.value.pid == host.t.reported
      ensures r.Ok? ==> MadeFor(host.c, id, createdAt, r.value)
      ensures SameTmux(id, old(host.w), host.w)
      ensures Quiet(old(host.t), host.t) && r.Ok? ==> host.w.tmux == old(host.w).tmux
      ensures r.Err? ==> host.t.failures > old(host.t).failures || |ExpectedSocket(host.c.stateDir, id)| > MAX_SOCKET_PATH
      ensures r.Err? ==> r.kind == Dependency || r.kind == BridgeIncomplete
      ensures r.Err? && !undone ==> TwoFailures(old(host.t), host.t, |ExpectedSocket(host.c.stateDir, id)| > MAX_SOCKET_PATH)
      ensures r.Err? && undone ==> id !in host.w.records && id !in host.w.tmux
    {
      hide Traced, Latest, Compatible, KindIn, Sound, OnlyBridge;
      undone := false;
      var ok, ref := NewPublicRef();
      if !ok {
        var bare := Session(id, id, "", id, ExpectedSocket(host.c.stateDir, id), 0, host.c.home, createdAt);
        ok := CleanupNewSession(bare);
        undone := ok;
        return Err(Dependency), undone;
      }
      var m := Session(id, id, ref, id, ExpectedSocket(host.c.stateDir, id), 0, host.c.home, createdAt);
      SocketIsAbsolute(host.c.stateDir, id);
      r, undone := BringUp(m);
    }

    /** Selects the healthy session that has the name, or makes one after clearing away what is
        left of a dead one. */
    method CreateOrSelect(id: string, createdAt: string)
      returns (r: Result<Session>, created: bool, ghost undone: bool, ghost locked: World)
      requires Valid()
      modifies host
      ensures Valid() && Extends(host.c, old(host.w), locked) && Extends(host.c, locked, host.w) && Later(old(host.t), host.t)
      ensures host.t.disturbed == old(host.t).disturbed ==> locked == old(host.w)
      ensures !ValidId(id) ==> r == Err(InvalidName) && host.w == old(host.w)
      ensures r.Ok? ==> Returned(host.c, id, r.value, host.w, host.t.blind == old(host.t).blind) && r.value.pid == host.t.reported
      ensures r.Ok? && created ==> MadeFor(host.c, id, createdAt, r.value)
      ensures r.Ok? && created ==> host.holder == Some(id) && Asked(id, BeginTmux, host.turns)
      ensures r.Ok? && created ==> (id in host.w.tmux ==> host.w.tmux[id] >= locked.births)
      ensures r.Ok? && !created ==> Good(host.c, locked.records, id) && SameSession(locked.records[id].session, r.value)
      ensures r.Ok? && !created ==> Dressed(id, host.turns)
      ensures Quiet(old(host.t), host.t) && r.Ok? ==> id in host.w.tmux
      ensures r.Err? && ValidId(id) ==> r.kind == Dependency || r.kind == BridgeIncomplete || r.kind == Conflict
      ensures r == Err(Conflict) ==> !Good(host.c, locked.records, id) && id in locked.tmux
      ensures KillsOnlyMade(id, locked.births, locked.kills, host.w.kills)
      ensures r.Err? ==> !created && (undone ==> id !in host.w.tmux)
      ensures r.Err? && host.holder == Some(id) && BeginTmux in host.asked && !undone && ValidId(id) ==>
        TwoFailures(old(host.t), host.t, |ExpectedSocket(host.c.stateDir, id)| > MAX_SOCKET_PATH)
      ensures Kept(host.c, id, locked, host.w, host.t.blind > old(host.t).blind)
      ensures Good(host.c, locked.records, id) && !Ended(id, locked, host.w, host.t.blind > old(host.t).blind) ==>
        NoRollback(id, locked.removals, host.w.removals) && !created
      ensures Quiet(old(host.t), host.t) && ValidId(id) ==>
        var managed, alive := Good(host.c, old(host.w).records, id), id in old(host.w).tmux;
        && (!managed && alive ==> r == Err(Conflict) && host.w == old(host.w))
        && (r.Ok? ==> created == !alive)
        && (managed || !alive ==> r.Ok? || |ExpectedSocket(host.c.stateDir, id)| > 100)
    {
      hide Traced, Latest, GoodOrLogged, Good, Ended, Returned, SameSession, MadeFor, Asked;
      created, undone, locked := false, false, host.w;
      ExtendsReflexive(host.c, host.w);
      if !ValidId(id) {
        return Err(InvalidName), created, undone, locked;
      }
      var ok := Lock(id);
      locked := host.w;
      ExtendsReflexive(host.c, host.w);
      if !ok {
        return Err(Dependency), created, undone, locked;
      }
      r, created, undone := SelectLocked(id, createdAt);
    }

    method SelectLocked(id: string, createdAt: string) returns (r: Result<Session>, created: bool, ghost undone: bool)
      requires Valid() && ValidId(id)
      requires !host.making && host.asked == {} && host.holder == Some(id)
      modifies host`w, host`t, host`stage, host`path, host`turns, host`making, host`asked
      ensures Valid() && Extends(host.c, old(host.w), host.w) && Later(old(host.t), host.t)
      ensures r.Ok? ==> Returned(host.c, id, r.value, host.w, host.t.blind == old(host.t).blind) && r.value.pid == host.t.reported
      ensures r.Ok? && created ==> MadeFor(host.c, id, createdAt, r.value)
      ensures r.Ok? && created ==> Asked(id, BeginTmux, host.turns) && (id in host.w.tmux ==> host.w.tmux[id] >= old(host.w).births)
      ensures r.Ok? && !created ==> Good(host.c, old(host.w).records, id) && SameSession(old(host.w).records[id].session, r.value)
      ensures r.Ok? && !created ==> Dressed(id, host.turns)
      ensures Quiet(old(host.t), host.t) && r.Ok? ==> id in host.w.tmux
      ensures r.Err? ==> r.kind == Dependency || r.kind == BridgeIncomplete || r.kind == Conflict
      ensures r == Err(Conflict) ==> !Good(host.c, old(host.w).records, id) && id in old(host.w).tmux
      ensures KillsOnlyMade(id, old(host.w).births, old(host.w).kills, host.w.kills)
      ensures r.Err? ==> !created && (undone ==> id !in host.w.tmux)
      ensures r.Err? && BeginTmux in host.asked && !undone ==>
        TwoFailures(old(host.t), host.t, |ExpectedSocket(host.c.stateDir, id)| > MAX_SOCKET_PATH)
      ensures Kept(host.c, id, old(host.w), host.w, host.t.blind > old(host.t).blind)
      ensures Good(host.c, old(host.w).records, id) && !Ended(id, old(host.w), host.w, host.t.blind > old(host.t).blind) ==>
        NoRollback(id, old(host.w).removals, host.w.removals) && !created
      ensures Quiet(old(host.t), host.t) ==>
        var managed, alive := Good(host.c, old(host.w).records, id), id in old(host.w).tmux;
        && (!managed && alive ==> r == Err(Conflict) && host.w == old(host.w))
        && (r.Ok? ==> created == !alive)
        && (managed || !alive ==> r.Ok? || |ExpectedSocket(host.c.stateDir, id)| > MAX_SOCKET_PATH)
    {
      hide Traced, Latest, GoodOrLogged, OwnEbbs, Canonical, Compatible, KindIn, Sound, Good, Tended, OnlyBridge, Ended;
      hide Asked, Latest, OnlyWrote, MadeFor;
      created, undone := false, false;
      var found := ResolveLocked(id);
      ghost var resolved, tally := host.w, host.t;
      match found
      case Failed => return Err(Dependency), created, undone;
      case NotCleaned => return Err(Dependency), created, undone;
      case Live(m) =>
        CanonicalSocket(host.c.stateDir, m);
        ghost var keep;
        r, keep := EnsureBridgeLocked(m);
        KeepsTransitive(host.c, id, old(host.w), resolved, host.w);
        if r.Ok? { CanonicalRecordIsGood(host.c, host.w.records, r.value); }
      case _ =>
        GoodDepends(host.c, old(host.w).records, host.w.records, id);
        r, undone := MakeSession(id, createdAt);
        TracedMaking(host.c, id, host.making, host.asked, host.stage, host.path, host.turns, host.w);
        created := r.Ok?;
        ExtendsTransitive(host.c, old(host.w), resolved, host.w);
        MadeLater(id, old(host.w), resolved, host.w);
        EndedIf(found.Cleaned?, id, old(host.w), resolved, host.w, tally.blind > old(host.t).blind, host.t.blind > old(host.t).blind);
    }
  }
}
