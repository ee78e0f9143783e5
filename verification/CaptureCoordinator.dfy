/** Single-flight captures of terminal history: callers asking for the same scope share
    one running capture, and captures are capped per process, per login and over time.
    Every locked section of the code is one step; steps of different callers interleave
    in any order. */
module CaptureCoordinator {
  import opened CaptureRate
  import TimeLog

  datatype Outcome = Outcome(product: string, error: string)
  datatype Progress = Running | Done(outcome: Outcome)

  /** One capture; `leader` is the caller that runs it. */
  datatype Call = Call(key: Key, leader: int, waiters: nat, progress: Progress)

  datatype Refusal = TooManyWaiters | TooManyCaptures | TooManyForLogin | RateRefused(verdict: Verdict)

  datatype Caller =
    | Capturing(key: Key, call: nat)
    | Waiting(key: Key, call: nat)
    | Cancelling(key: Key, call: nat)     // saw its context end, has not yet left the queue
    | Answered(key: Key, call: nat, outcome: Outcome)
    | Cancelled(key: Key, call: nat)
    | Refused(key: Key, reason: Refusal)

  datatype Config = Config(rate: RateConfig, maxProcess: nat, maxLogin: nat, maxWaiters: nat)

  datatype State = State(calls: seq<Call>, inFlight: map<Key, nat>, activeCaptures: int, activeByLogin: map<string, int>,
                         rates: map<Key, Rate>, callers: map<int, Caller>, grants: seq<Grant>, clock: int)

  const INIT := State([], map[], 0, map[], map[], map[], [], 0)

  // ----- Steps

  datatype Event =
    | Enter(caller: int, key: Key, now: int)
    | Finish(caller: int, outcome: Outcome)
    | Cancel(caller: int)
    | Leave(caller: int)
    | Deliver(caller: int)

  ghost predicate Linked(s: State) {
    && (forall k :: k in s.inFlight ==> s.inFlight[k] < |s.calls|)
    && (forall c :: c in s.callers && !s.callers[c].Refused? ==> s.callers[c].call < |s.calls|)
  }

  ghost predicate Enabled(s: State, e: Event) {
    match e
    case Enter(c, _, now) => c !in s.callers && s.clock <= now
    case Finish(c, _) => c in s.callers && s.callers[c].Capturing?
    case Cancel(c) => c in s.callers && s.callers[c].Waiting?
    case Leave(c) => c in s.callers && s.callers[c].Cancelling?
    case Deliver(c) => Linked(s) && c in s.callers && s.callers[c].Waiting? && s.calls[s.callers[c].call].progress.Done?
  }

  function LoginCount(active: map<string, int>, user: string): int { if user in active then active[user] else 0 }

  function WithCaller(s: State, c: int, caller: Caller): State { s.(callers := s.callers[c := caller]) }

  function Begin(s: State, c: int, key: Key): State {
    var id := |s.calls|;
    s.(calls := s.calls + [Call(key, c, 0, Running)], inFlight := s.inFlight[key := id],
       activeCaptures := s.activeCaptures + 1,
       activeByLogin := s.activeByLogin[key.user := LoginCount(s.activeByLogin, key.user) + 1],
       callers := s.callers[c := Capturing(key, id)])
  }

  /** The caps leave room: the rate limit decides. */
  function DecidedStep(config: Config, s: State, c: int, key: Key, now: int): State {
    var (verdict, rates) := Decide(config.rate, s.rates, key, now);
    var decided := s.(rates := rates, grants := LogAfter(config.rate, s.rates, s.grants, key, now), clock := now);
    if !verdict.Granted? then WithCaller(decided, c, Refused(key, RateRefused(verdict)))
    else Begin(decided, c, key)
  }

  ghost function EnterStep(config: Config, s: State, c: int, key: Key, now: int): State
    requires Linked(s)
  {
    var later := s.(clock := now);
    if key in s.inFlight then
      var id := s.inFlight[key];
      var call := s.calls[id];
      if call.waiters >= config.maxWaiters then WithCaller(later, c, Refused(key, TooManyWaiters))
      else WithCaller(later, c, Waiting(key, id)).(calls := s.calls[id := call.(waiters := call.waiters + 1)])
    else if s.activeCaptures >= config.maxProcess then WithCaller(later, c, Refused(key, TooManyCaptures))
    else if LoginCount(s.activeByLogin, key.user) >= config.maxLogin then WithCaller(later, c, Refused(key, TooManyForLogin))
    else DecidedStep(config, s, c, key, now)
  }

  function ReleaseLogin(active: map<string, int>, user: string): map<string, int> {
    var left := LoginCount(active, user) - 1;
    if left == 0 then active - {user} else active[user := left]
  }

  ghost function FinishStep(s: State, c: int, outcome: Outcome): State
    requires Linked(s) && c in s.callers && s.callers[c].Capturing?
  {
    var Capturing(key, id) := s.callers[c];
    s.(calls := s.calls[id := s.calls[id].(progress := Done(outcome))], inFlight := s.inFlight - {key},
       activeCaptures := s.activeCaptures - 1, activeByLogin := ReleaseLogin(s.activeByLogin, key.user),
       callers := s.callers[c := Answered(key, id, outcome)])
  }

  /** Leaving counts only while the call that was joined is still the one in flight. */
  ghost function LeaveStep(s: State, c: int): State
    requires Linked(s) && c in s.callers && s.callers[c].Cancelling?
  {
    var Cancelling(key, id) := s.callers[c];
    var left := WithCaller(s, c, Cancelled(key, id));
    if key in s.inFlight && s.inFlight[key] == id && s.calls[id].waiters > 0
    then left.(calls := s.calls[id := s.calls[id].(waiters := s.calls[id].waiters - 1)])
    else left
  }

  ghost function Step(config: Config, s: State, e: Event): State
    requires Linked(s) && Enabled(s, e)
  {
    match e
    case Enter(c, key, now) => EnterStep(config, s, c, key, now)
    case Finish(c, outcome) => FinishStep(s, c, outcome)
    case Cancel(c) => WithCaller(s, c, Cancelling(s.callers[c].key, s.callers[c].call))
    case Leave(c) => LeaveStep(s, c)
    case Deliver(c) =>
      var Waiting(key, id) := s.callers[c];
      WithCaller(s, c, Answered(key, id, s.calls[id].progress.outcome))
  }

  // ----- The invariant

  ghost function KeysOf(inFlight: map<Key, nat>, user: string): set<Key> { set k | k in inFlight && k.user == user }

  predicate JoinedTo(caller: Caller, id: nat) { (caller.Waiting? || caller.Cancelling?) && caller.call == id }

  ghost function Joined(callers: map<int, Caller>, id: nat): set<int> { set c | c in callers && JoinedTo(callers[c], id) }

  predicate Runs(calls: seq<Call>, i: int) { 0 <= i < |calls| && calls[i].progress.Running? }

  /** The table of running captures and the calls that run are the same thing. */
  ghost predicate FlightsOk(calls: seq<Call>, inFlight: map<Key, nat>) {
    && (forall k :: k in inFlight ==> Runs(calls, inFlight[k]) && calls[inFlight[k]].key == k)
    && (forall i :: Runs(calls, i) ==> calls[i].key in inFlight && inFlight[calls[i].key] == i)
  }

  ghost predicate LoginOk(config: Config, inFlight: map<Key, nat>, active: map<string, int>, user: string) {
    && LoginCount(active, user) == |KeysOf(inFlight, user)| <= config.maxLogin
    && (user in active ==> active[user] > 0)
  }

  ghost predicate CountersOk(config: Config, inFlight: map<Key, nat>, activeCaptures: int, active: map<string, int>) {
    && activeCaptures == |inFlight| <= config.maxProcess
    && forall user :: LoginOk(config, inFlight, active, user)
  }

  /** A caller's call is for the key it asked for; a leader's call runs; an answer is the
      call's own outcome. */
  ghost predicate CallerOk(calls: seq<Call>, c: int, caller: Caller) {
    !caller.Refused? ==>
      && caller.call < |calls| && calls[caller.call].key == caller.key
      && (caller.Capturing? ==> calls[caller.call].leader == c && calls[caller.call].progress.Running?)
      && (caller.Answered? ==> calls[caller.call].progress == Done(caller.outcome))
  }

  ghost predicate CallersOk(calls: seq<Call>, callers: map<int, Caller>) {
    && (forall c :: c in callers ==> CallerOk(calls, c, callers[c]))
    && (forall i :: Runs(calls, i) ==> calls[i].leader in callers && callers[calls[i].leader] == Capturing(calls[i].key, i))
  }

  ghost predicate WaitersOk(config: Config, calls: seq<Call>, callers: map<int, Caller>) {
    forall i :: Runs(calls, i) ==> calls[i].waiters == |Joined(callers, i)| <= config.maxWaiters
  }

  ghost predicate Inv(config: Config, s: State) {
    && FlightsOk(s.calls, s.inFlight)
    && CountersOk(config, s.inFlight, s.activeCaptures, s.activeByLogin)
    && CallersOk(s.calls, s.callers)
    && WaitersOk(config, s.calls, s.callers)
    && RatesOk(config.rate, s.rates, s.grants, s.clock)
  }

  lemma InvLinked(config: Config, s: State)
    requires Inv(config, s)
    ensures Linked(s)
  {
    assert forall c :: c in s.callers ==> CallerOk(s.calls, c, s.callers[c]);
  }

  // ----- Every step keeps it

  lemma JoinedUnchanged(callers: map<int, Caller>, c: int, caller: Caller, id: nat)
    requires JoinedTo(caller, id) == (c in callers && JoinedTo(callers[c], id))
    ensures Joined(callers[c := caller], id) == Joined(callers, id)
  {
  }

  lemma JoinedAdded(callers: map<int, Caller>, c: int, caller: Caller, id: nat)
    requires JoinedTo(caller, id) && !(c in callers && JoinedTo(callers[c], id))
    ensures |Joined(callers[c := caller], id)| == |Joined(callers, id)| + 1
  {
    assert Joined(callers[c := caller], id) == Joined(callers, id) + {c};
  }

  lemma JoinedRemoved(callers: map<int, Caller>, c: int, caller: Caller, id: nat)
    requires !JoinedTo(caller, id) && c in callers && JoinedTo(callers[c], id)
    ensures |Joined(callers[c := caller], id)| == |Joined(callers, id)| - 1
  {
    assert Joined(callers[c := caller], id) == Joined(callers, id) - {c};
  }

  /** A caller that does not lead takes up another consistent standing. */
  lemma CallersMove(calls: seq<Call>, callers: map<int, Caller>, c: int, caller: Caller)
    requires CallersOk(calls, callers) && (c in callers ==> !callers[c].Capturing?)
    requires !caller.Capturing? && CallerOk(calls, c, caller)
    ensures CallersOk(calls, callers[c := caller])
  {
  }

  lemma WaitersMove(config: Config, calls: seq<Call>, callers: map<int, Caller>, c: int, caller: Caller)
    requires WaitersOk(config, calls, callers)
    requires forall i :: Runs(calls, i) ==> JoinedTo(caller, i) == (c in callers && JoinedTo(callers[c], i))
    ensures WaitersOk(config, calls, callers[c := caller])
  {
    forall i | Runs(calls, i)
      ensures Joined(callers[c := caller], i) == Joined(callers, i)
    {
      JoinedUnchanged(callers, c, caller, i);
    }
  }

  /** Counting waiters touches nothing else. */
  lemma QueueCount(calls: seq<Call>, inFlight: map<Key, nat>, callers: map<int, Caller>, id: nat, waiters: nat)
    requires FlightsOk(calls, inFlight) && CallersOk(calls, callers) && id < |calls|
    ensures FlightsOk(calls[id := calls[id].(waiters := waiters)], inFlight)
    ensures CallersOk(calls[id := calls[id].(waiters := waiters)], callers)
  {
    var calls' := calls[id := calls[id].(waiters := waiters)];
    assert forall i :: Runs(calls', i) <==> Runs(calls, i);
  }

  lemma WaitersCount(config: Config, calls: seq<Call>, callers: map<int, Caller>, c: int, caller: Caller, id: nat, waiters: nat)
    requires WaitersOk(config, calls, callers) && Runs(calls, id)
    requires forall i :: Runs(calls, i) && i != id ==> JoinedTo(caller, i) == (c in callers && JoinedTo(callers[c], i))
    requires waiters == |Joined(callers[c := caller], id)| <= config.maxWaiters
    ensures WaitersOk(config, calls[id := calls[id].(waiters := waiters)], callers[c := caller])
  {
    var calls', callers' := calls[id := calls[id].(waiters := waiters)], callers[c := caller];
    forall i | Runs(calls', i)
      ensures calls'[i].waiters == |Joined(callers', i)| <= config.maxWaiters
    {
      assert Runs(calls, i);
      if i != id { JoinedUnchanged(callers, c, caller, i); }
    }
  }

  lemma KeysAdded(inFlight: map<Key, nat>, key: Key, id: nat, user: string)
    requires key !in inFlight
    ensures |KeysOf(inFlight[key := id], user)| == |KeysOf(inFlight, user)| + (if user == key.user then 1 else 0)
  {
    if user == key.user {
      assert KeysOf(inFlight[key := id], user) == KeysOf(inFlight, user) + {key};
    } else {
      assert KeysOf(inFlight[key := id], user) == KeysOf(inFlight, user);
    }
  }

  lemma KeysRemoved(inFlight: map<Key, nat>, key: Key, user: string)
    requires key in inFlight
    ensures |KeysOf(inFlight - {key}, user)| == |KeysOf(inFlight, user)| - (if user == key.user then 1 else 0)
  {
    if user == key.user {
      assert KeysOf(inFlight - {key}, user) == KeysOf(inFlight, user) - {key};
    } else {
      assert KeysOf(inFlight - {key}, user) == KeysOf(inFlight, user);
    }
  }

  lemma BeginCounters(config: Config, inFlight: map<Key, nat>, n: int, active: map<string, int>, key: Key, id: nat)
    requires CountersOk(config, inFlight, n, active) && key !in inFlight
    requires n < config.maxProcess && LoginCount(active, key.user) < config.maxLogin
    ensures CountersOk(config, inFlight[key := id], n + 1, active[key.user := LoginCount(active, key.user) + 1])
  {
    var inFlight', active' := inFlight[key := id], active[key.user := LoginCount(active, key.user) + 1];
    assert inFlight'.Keys == inFlight.Keys + {key};
    forall user
      ensures LoginOk(config, inFlight', active', user)
    {
      assert LoginOk(config, inFlight, active, user);
      KeysAdded(inFlight, key, id, user);
    }
  }

  lemma FinishCounters(config: Config, inFlight: map<Key, nat>, n: int, active: map<string, int>, key: Key)
    requires CountersOk(config, inFlight, n, active) && key in inFlight
    ensures CountersOk(config, inFlight - {key}, n - 1, ReleaseLogin(active, key.user))
  {
    var inFlight', active' := inFlight - {key}, ReleaseLogin(active, key.user);
    assert inFlight'.Keys == inFlight.Keys - {key};
    forall user
      ensures LoginOk(config, inFlight', active', user)
    {
      assert LoginOk(config, inFlight, active, user);
      KeysRemoved(inFlight, key, user);
    }
  }

  /** A new call starts under a key that has none running. */
  lemma BeginCalls(config: Config, calls: seq<Call>, inFlight: map<Key, nat>, callers: map<int, Caller>, c: int, key: Key)
    requires FlightsOk(calls, inFlight) && CallersOk(calls, callers) && WaitersOk(config, calls, callers)
    requires key !in inFlight && c !in callers
    ensures var calls', callers' := calls + [Call(key, c, 0, Running)], callers[c := Capturing(key, |calls|)];
            && FlightsOk(calls', inFlight[key := |calls|]) && CallersOk(calls', callers') && WaitersOk(config, calls', callers')
  {
    var id := |calls|;
    var calls', callers' := calls + [Call(key, c, 0, Running)], callers[c := Capturing(key, id)];
    assert forall i :: Runs(calls', i) <==> Runs(calls, i) || i == id;
    forall d | d in callers'
      ensures CallerOk(calls', d, callers'[d]) && !JoinedTo(callers'[d], id)
    {
      if d != c { assert CallerOk(calls, d, callers[d]); }
    }
    assert Joined(callers', id) == {};
    WaitersMove(config, calls, callers, c, Capturing(key, id));
  }

  lemma FinishCalls(config: Config, calls: seq<Call>, inFlight: map<Key, nat>, callers: map<int, Caller>, c: int, key: Key, id: nat, outcome: Outcome)
    requires FlightsOk(calls, inFlight) && CallersOk(calls, callers) && WaitersOk(config, calls, callers)
    requires c in callers && callers[c] == Capturing(key, id)
    ensures key in inFlight && inFlight[key] == id && Runs(calls, id)
    ensures var calls', callers' := calls[id := calls[id].(progress := Done(outcome))], callers[c := Answered(key, id, outcome)];
            && FlightsOk(calls', inFlight - {key}) && CallersOk(calls', callers') && WaitersOk(config, calls', callers')
  {
    assert CallerOk(calls, c, callers[c]);
    var calls', callers' := calls[id := calls[id].(progress := Done(outcome))], callers[c := Answered(key, id, outcome)];
    assert forall i :: Runs(calls', i) <==> Runs(calls, i) && i != id;
    forall d | d in callers'
      ensures CallerOk(calls', d, callers'[d])
    {
      if d != c { assert CallerOk(calls, d, callers[d]); }
    }
    WaitersMove(config, calls, callers, c, Answered(key, id, outcome));
  }

  lemma RefuseKeeps(config: Config, s: State, c: int, key: Key, reason: Refusal)
    requires Inv(config, s) && c !in s.callers
    ensures Inv(config, WithCaller(s, c, Refused(key, reason)))
  {
    CallersMove(s.calls, s.callers, c, Refused(key, reason));
    WaitersMove(config, s.calls, s.callers, c, Refused(key, reason));
  }

  lemma JoinKeeps(config: Config, s: State, c: int, key: Key)
    requires Inv(config, s) && c !in s.callers && key in s.inFlight
    requires s.calls[s.inFlight[key]].waiters < config.maxWaiters
    ensures var id := s.inFlight[key];
            Inv(config, WithCaller(s, c, Waiting(key, id)).(calls := s.calls[id := s.calls[id].(waiters := s.calls[id].waiters + 1)]))
  {
    var id := s.inFlight[key];
    CallersMove(s.calls, s.callers, c, Waiting(key, id));
    JoinedAdded(s.callers, c, Waiting(key, id), id);
    QueueCount(s.calls, s.inFlight, s.callers[c := Waiting(key, id)], id, s.calls[id].waiters + 1);
    WaitersCount(config, s.calls, s.callers, c, Waiting(key, id), id, s.calls[id].waiters + 1);
  }

  lemma BeginKeeps(config: Config, s: State, c: int, key: Key)
    requires Inv(config, s) && c !in s.callers && key !in s.inFlight
    requires s.activeCaptures < config.maxProcess && LoginCount(s.activeByLogin, key.user) < config.maxLogin
    ensures Inv(config, Begin(s, c, key))
  {
    BeginCounters(config, s.inFlight, s.activeCaptures, s.activeByLogin, key, |s.calls|);
    BeginCalls(config, s.calls, s.inFlight, s.callers, c, key);
  }

  lemma DecidedKeeps(config: Config, s: State, c: int, key: Key, now: int)
    requires Inv(config, s) && c !in s.callers && s.clock <= now && key !in s.inFlight
    requires s.activeCaptures < config.maxProcess && LoginCount(s.activeByLogin, key.user) < config.maxLogin
    ensures Inv(config, DecidedStep(config, s, c, key, now))
  {
    var (verdict, rates) := Decide(config.rate, s.rates, key, now);
    var decided := s.(rates := rates, grants := LogAfter(config.rate, s.rates, s.grants, key, now), clock := now);
    DecideKeeps(config.rate, s.rates, s.grants, s.clock, key, now);
    assert Inv(config, decided);
    if verdict.Granted? {
      BeginKeeps(config, decided, c, key);
    } else {
      RefuseKeeps(config, decided, c, key, RateRefused(verdict));
    }
  }

  lemma EnterKeeps(config: Config, s: State, c: int, key: Key, now: int)
    requires Inv(config, s) && Linked(s) && c !in s.callers && s.clock <= now
    ensures Inv(config, EnterStep(config, s, c, key, now))
  {
    hide RatesOk, CountersOk, CallersOk, WaitersOk;
    var later := s.(clock := now);
    assert Inv(config, later) by {
      RatesLater(config.rate, s.rates, s.grants, s.clock, now);
    }
    if key in s.inFlight {
      if s.calls[s.inFlight[key]].waiters >= config.maxWaiters {
        RefuseKeeps(config, later, c, key, TooManyWaiters);
      } else {
        JoinKeeps(config, later, c, key);
      }
    } else if s.activeCaptures >= config.maxProcess {
      RefuseKeeps(config, later, c, key, TooManyCaptures);
    } else if LoginCount(s.activeByLogin, key.user) >= config.maxLogin {
      RefuseKeeps(config, later, c, key, TooManyForLogin);
    } else {
      DecidedKeeps(config, s, c, key, now);
    }
  }

  lemma LeaveKeeps(config: Config, s: State, c: int)
    requires Inv(config, s) && Linked(s) && c in s.callers && s.callers[c].Cancelling?
    ensures Inv(config, LeaveStep(s, c))
  {
    hide RatesOk, CountersOk;
    var Cancelling(key, id) := s.callers[c];
    var gone := Cancelled(key, id);
    assert CallerOk(s.calls, c, s.callers[c]);
    CallersMove(s.calls, s.callers, c, gone);
    if key in s.inFlight && s.inFlight[key] == id {
      assert c in Joined(s.callers, id) && Runs(s.calls, id);
      JoinedRemoved(s.callers, c, gone, id);
      QueueCount(s.calls, s.inFlight, s.callers[c := gone], id, s.calls[id].waiters - 1);
      WaitersCount(config, s.calls, s.callers, c, gone, id, s.calls[id].waiters - 1);
    } else {
      assert !Runs(s.calls, id);
      WaitersMove(config, s.calls, s.callers, c, gone);
    }
  }

  lemma StepKeeps(config: Config, s: State, e: Event)
    requires Inv(config, s) && Enabled(s, e)
    ensures Linked(s) && Inv(config, Step(config, s, e))
  {
    InvLinked(config, s);
    match e
    case Enter(c, key, now) => EnterKeeps(config, s, c, key, now);
    case Finish(c, outcome) =>
      var Capturing(key, id) := s.callers[c];
      FinishCalls(config, s.calls, s.inFlight, s.callers, c, key, id, outcome);
      FinishCounters(config, s.inFlight, s.activeCaptures, s.activeByLogin, key);
    case Cancel(c) =>
      assert CallerOk(s.calls, c, s.callers[c]);
      CallersMove(s.calls, s.callers, c, Cancelling(s.callers[c].key, s.callers[c].call));
      WaitersMove(config, s.calls, s.callers, c, Cancelling(s.callers[c].key, s.callers[c].call));
    case Leave(c) => LeaveKeeps(config, s, c);
    case Deliver(c) =>
      assert CallerOk(s.calls, c, s.callers[c]);
      var Waiting(key, id) := s.callers[c];
      var answer := Answered(key, id, s.calls[id].progress.outcome);
      CallersMove(s.calls, s.callers, c, answer);
      WaitersMove(config, s.calls, s.callers, c, answer);
  }

  // ----- Whole runs

  /** states[0], events[0], states[1], ... : one interleaving of all callers' steps. */
  ghost predicate IsRun(config: Config, states: seq<State>, events: seq<Event>) {
    && |states| == |events| + 1 && states[0] == INIT
    && forall i :: 0 <= i < |events| ==> Moves(config, states[i], events[i], states[i + 1])
  }

  ghost predicate Moves(config: Config, s: State, e: Event, s': State) {
    Linked(s) && Enabled(s, e) && s' == Step(config, s, e)
  }

  lemma InitOk(config: Config)
    ensures Inv(config, INIT)
  {
    forall user: string
      ensures LoginOk(config, INIT.inFlight, INIT.activeByLogin, user)
    {
      assert KeysOf(INIT.inFlight, user) == {};
    }
  }

  /** In every reachable state the counters count, the caps hold and the rate table is
      faithful to the history of grants. */
  lemma {:induction false} RunKeeps(config: Config, states: seq<State>, events: seq<Event>, n: nat)
    requires IsRun(config, states, events) && n < |states|
    ensures Inv(config, states[n])
  {
    hide Inv, Step, Linked, Enabled;
    if n == 0 {
      InitOk(config);
    } else {
      RunKeeps(config, states, events, n - 1);
      assert Moves(config, states[n - 1], events[n - 1], states[n]);
      StepKeeps(config, states[n - 1], events[n - 1]);
    }
  }

  /** What a newcomer gets, said of the state rather than of the counters: a place in the
      queue of the call running under its key; or, with none running, a capture of its own,
      unless as many run already as the process or its login may have, or its scope was
      granted as often as the window allows. */
  ghost function Deserved(config: Config, s: State, key: Key, now: int): Caller {
    if exists i :: Runs(s.calls, i) && s.calls[i].key == key then
      var i :| Runs(s.calls, i) && s.calls[i].key == key;
      if |Joined(s.callers, i)| < config.maxWaiters then Waiting(key, i) else Refused(key, TooManyWaiters)
    else DeservedAlone(config, s, key, now)
  }

  ghost function DeservedAlone(config: Config, s: State, key: Key, now: int): Caller {
    var live := Live(s.rates, now - config.rate.window);
    if |s.inFlight| >= config.maxProcess then Refused(key, TooManyCaptures)
    else if |KeysOf(s.inFlight, key.user)| >= config.maxLogin then Refused(key, TooManyForLogin)
    else if key !in live && |live| >= config.rate.maxScopes then Refused(key, RateRefused(ScopesExceeded))
    else if |TimeLog.Recent(GrantsOf(s.grants, key), now - config.rate.window + 1)| >= config.rate.limit
    then Refused(key, RateRefused(RateExceeded))
    else Capturing(key, |s.calls|)
  }

  lemma QueueDecides(config: Config, s: State, c: int, key: Key, now: int)
    requires FlightsOk(s.calls, s.inFlight) && WaitersOk(config, s.calls, s.callers) && Linked(s) && key in s.inFlight
    ensures c in EnterStep(config, s, c, key, now).callers
    ensures EnterStep(config, s, c, key, now).callers[c] == Deserved(config, s, key, now)
  {
    hide DecidedStep, Joined;
    assert Runs(s.calls, s.inFlight[key]) && s.calls[s.inFlight[key]].key == key;
  }

  lemma RateDecides(config: Config, s: State, c: int, key: Key, now: int)
    requires RatesOk(config.rate, s.rates, s.grants, s.clock) && s.clock <= now
    ensures c in DecidedStep(config, s, c, key, now).callers
    ensures var live := Live(s.rates, now - config.rate.window);
            DecidedStep(config, s, c, key, now).callers[c] ==
            if key !in live && |live| >= config.rate.maxScopes then Refused(key, RateRefused(ScopesExceeded))
            else if |TimeLog.Recent(GrantsOf(s.grants, key), now - config.rate.window + 1)| >= config.rate.limit
            then Refused(key, RateRefused(RateExceeded))
            else Capturing(key, |s.calls|)
  {
    hide RatesOk, Decide, LogAfter, GrantsOf;
    VerdictCountsGrants(config.rate, s.rates, s.grants, s.clock, key, now);
  }

  lemma AdmitDecides(config: Config, s: State, c: int, key: Key, now: int)
    requires CountersOk(config, s.inFlight, s.activeCaptures, s.activeByLogin)
    requires RatesOk(config.rate, s.rates, s.grants, s.clock) && Linked(s) && key !in s.inFlight && s.clock <= now
    ensures c in EnterStep(config, s, c, key, now).callers
    ensures EnterStep(config, s, c, key, now).callers[c] == DeservedAlone(config, s, key, now)
  {
    hide DecidedStep, RatesOk, KeysOf, Live, GrantsOf;
    assert LoginOk(config, s.inFlight, s.activeByLogin, key.user);
    RateDecides(config, s, c, key, now);
  }

  lemma NoneRuns(s: State, key: Key)
    requires FlightsOk(s.calls, s.inFlight) && key !in s.inFlight
    ensures !exists i :: Runs(s.calls, i) && s.calls[i].key == key
  {
  }

  lemma EnterDecides(config: Config, s: State, c: int, key: Key, now: int)
    requires Inv(config, s) && Linked(s) && c !in s.callers && s.clock <= now
    ensures c in EnterStep(config, s, c, key, now).callers
    ensures EnterStep(config, s, c, key, now).callers[c] == Deserved(config, s, key, now)
  {
    hide DeservedAlone, FlightsOk, CountersOk, WaitersOk, CallersOk, RatesOk, EnterStep;
    if key in s.inFlight {
      QueueDecides(config, s, c, key, now);
    } else {
      AdmitDecides(config, s, c, key, now);
      NoneRuns(s, key);
    }
  }

  /** No key has two captures running at once, and each running call is somebody's. */
  lemma OneCapturePerKey(config: Config, s: State, c: int, d: int)
    requires Inv(config, s) && c in s.callers && d in s.callers
    requires s.callers[c].Capturing? && s.callers[d].Capturing? && s.callers[c].key == s.callers[d].key
    ensures c == d
  {
    assert CallerOk(s.calls, c, s.callers[c]) && CallerOk(s.calls, d, s.callers[d]);
    assert Runs(s.calls, s.callers[c].call) && Runs(s.calls, s.callers[d].call);
  }

  /** In any run, at most `limit` captures of one key are granted in any window. */
  lemma RunWithinRate(config: Config, states: seq<State>, events: seq<Event>, n: nat, key: Key, t: int)
    requires IsRun(config, states, events) && n < |states|
    ensures |Window(GrantsOf(states[n].grants, key), t, config.rate.window)| <= config.rate.limit
    ensures |states[n].rates| <= config.rate.maxScopes
  {
    RunKeeps(config, states, events, n);
    GrantsWithinLimit(config.rate, states[n].rates, states[n].grants, states[n].clock, key, t);
  }

  /** What no step ever changes: a call's key and leader, and its outcome once it has one. */
  ghost predicate CallsExtend(calls: seq<Call>, calls': seq<Call>) {
    && |calls| <= |calls'|
    && forall i :: 0 <= i < |calls| ==> CallExtends(calls[i], calls'[i])
  }

  predicate CallExtends(a: Call, b: Call) {
    b.key == a.key && b.leader == a.leader && (a.progress.Done? ==> b == a)
  }

  /** ... the key a caller asked for, the call it joined or began, and its answer. */
  ghost predicate CallersExtend(callers: map<int, Caller>, callers': map<int, Caller>) {
    forall c :: c in callers ==> c in callers' && CallerExtends(callers[c], callers'[c])
  }

  predicate CallerExtends(a: Caller, b: Caller) {
    && b.key == a.key
    && (!a.Refused? ==> !b.Refused? && b.call == a.call)
    && (a.Answered? || a.Cancelled? || a.Refused? ==> b == a)
  }

  ghost predicate Extends(s: State, s': State) {
    CallsExtend(s.calls, s'.calls) && CallersExtend(s.callers, s'.callers)
  }

  lemma ExtendsTransitive(a: State, b: State, c: State)
    requires Extends(a, b) && Extends(b, c)
    ensures Extends(a, c)
  {
    forall i | 0 <= i < |a.calls|
      ensures CallExtends(a.calls[i], c.calls[i])
    {
      assert CallExtends(a.calls[i], b.calls[i]) && CallExtends(b.calls[i], c.calls[i]);
    }
    forall d | d in a.callers
      ensures d in c.callers && CallerExtends(a.callers[d], c.callers[d])
    {
      assert CallerExtends(a.callers[d], b.callers[d]) && CallerExtends(b.callers[d], c.callers[d]);
    }
  }

  lemma EnterExtends(config: Config, s: State, c: int, key: Key, now: int)
    requires Linked(s) && FlightsOk(s.calls, s.inFlight) && c !in s.callers
    ensures Extends(s, EnterStep(config, s, c, key, now))
  {
    hide Decide, LogAfter, Live;
    if key in s.inFlight { assert Runs(s.calls, s.inFlight[key]); }
    var s' := EnterStep(config, s, c, key, now);
    assert forall d :: d in s.callers ==> d in s'.callers && s'.callers[d] == s.callers[d];
  }

  /** One caller takes a new standing, and at most the call it has to do with changes. */
  lemma OneExtends(s: State, s': State, c: int, id: nat)
    requires c in s.callers && c in s'.callers && s'.callers == s.callers[c := s'.callers[c]]
    requires CallerExtends(s.callers[c], s'.callers[c]) && id < |s.calls|
    requires s'.calls == s.calls || (id < |s'.calls| && s'.calls == s.calls[id := s'.calls[id]])
    requires s'.calls != s.calls ==> CallExtends(s.calls[id], s'.calls[id])
    ensures Extends(s, s')
  {
    if s'.calls != s.calls {
      assert forall i :: 0 <= i < |s.calls| && i != id ==> s'.calls[i] == s.calls[i];
    }
  }

  lemma StepExtends(config: Config, s: State, e: Event)
    requires FlightsOk(s.calls, s.inFlight) && CallersOk(s.calls, s.callers) && Linked(s) && Enabled(s, e)
    ensures Extends(s, Step(config, s, e))
  {
    hide EnterStep, Extends, ReleaseLogin;
    var c := e.caller;
    if e.Enter? {
      EnterExtends(config, s, c, e.key, e.now);
    } else {
      assert CallerOk(s.calls, c, s.callers[c]);
      var s' := Step(config, s, e);
      assert s'.callers == s.callers[c := s'.callers[c]];
      if e.Leave? && s'.calls != s.calls { assert Runs(s.calls, s.callers[c].call); }
      OneExtends(s, s', c, s.callers[c].call);
    }
  }

  lemma {:induction false} RunExtends(config: Config, states: seq<State>, events: seq<Event>, i: nat, j: nat)
    requires IsRun(config, states, events) && i <= j < |states|
    ensures Extends(states[i], states[j])
    decreases j - i
  {
    if i < j {
      RunExtends(config, states, events, i, j - 1);
      RunStepExtends(config, states, events, j - 1);
      ExtendsTransitive(states[i], states[j - 1], states[j]);
    }
  }

  lemma RunStepExtends(config: Config, states: seq<State>, events: seq<Event>, i: nat)
    requires IsRun(config, states, events) && i < |events|
    ensures Extends(states[i], states[i + 1])
  {
    var s, s' := states[i], states[i + 1];
    RunKeeps(config, states, events, i);
    assert Moves(config, s, events[i], s');
    StepExtends(config, s, events[i]);
  }

  /** Whoever joins a call joins one that is running under the key asked for. */
  lemma JoinsOnlyRunning(config: Config, s: State, c: int, key: Key, now: int)
    requires FlightsOk(s.calls, s.inFlight) && Linked(s) && c !in s.callers
    ensures var caller := EnterStep(config, s, c, key, now).callers[c];
            caller.key == key && (caller.Waiting? ==> Runs(s.calls, caller.call) && s.calls[caller.call].key == key)
  {
    if key in s.inFlight {
      assert Runs(s.calls, s.inFlight[key]);
    } else {
      assert !EnterStep(config, s, c, key, now).callers[c].Waiting?;
    }
  }

  /** A caller that joined a call and was answered got exactly that call's outcome, under
      the very key it asked for, and that call was still running when it joined. */
  lemma WaiterGetsItsCall(config: Config, states: seq<State>, events: seq<Event>, i: nat, j: nat, c: int)
    requires IsRun(config, states, events) && i < j < |states|
    requires events[i].Enter? && events[i].caller == c
    requires c in states[i + 1].callers && states[i + 1].callers[c].Waiting?
    requires c in states[j].callers && states[j].callers[c].Answered?
    ensures var joined := states[i + 1].callers[c].call;
            && Runs(states[i].calls, joined) && states[i].calls[joined].key == events[i].key
            && joined < |states[j].calls| && states[j].calls[joined].progress == Done(states[j].callers[c].outcome)
  {
    RunKeeps(config, states, events, i);
    assert Moves(config, states[i], events[i], states[i + 1]);
    JoinsOnlyRunning(config, states[i], c, events[i].key, events[i].now);
    RunKeeps(config, states, events, j);
    RunExtends(config, states, events, i + 1, j);
    assert CallerExtends(states[i + 1].callers[c], states[j].callers[c]);
    assert CallerOk(states[j].calls, c, states[j].callers[c]);
  }

  /** Which steps make a call, and which give it an outcome: the one that its own leader reports. */
  lemma StepCalls(config: Config, s: State, e: Event, id: nat)
    requires Inv(config, s) && Linked(s) && Enabled(s, e)
    requires id < |Step(config, s, e).calls|
    ensures var s' := Step(config, s, e);
            && (id >= |s.calls| ==> id == |s.calls| && e == Enter(s'.calls[id].leader, s'.calls[id].key, s'.clock)
                                    && s'.calls[id].progress.Running?)
            && (s'.calls[id].progress.Done? ==>
                  (id < |s.calls| && s.calls[id].progress == s'.calls[id].progress)
                  || e == Finish(s'.calls[id].leader, s'.calls[id].progress.outcome))
  {
    hide Decide, LogAfter, FlightsOk, CountersOk, WaitersOk, RatesOk;
    if e.Finish? { assert CallerOk(s.calls, e.caller, s.callers[e.caller]); }
  }

  /** The calls are the grants, one by one. */
  ghost predicate GrantsMatch(s: State) {
    |s.grants| == |s.calls| && forall id :: 0 <= id < |s.calls| ==> s.grants[id].key == s.calls[id].key
  }

  lemma EnterGrants(config: Config, s: State, c: int, key: Key, now: int)
    requires Linked(s) && GrantsMatch(s)
    ensures var s' := EnterStep(config, s, c, key, now);
            && GrantsMatch(s') && (s'.grants == s.grants || s'.grants == s.grants + [Grant(key, now)])
  {
    hide DecidedStep;
    if key !in s.inFlight {
      DecidedGrants(config, s, c, key, now);
    }
  }

  lemma DecidedGrants(config: Config, s: State, c: int, key: Key, now: int)
    requires GrantsMatch(s)
    ensures var s' := DecidedStep(config, s, c, key, now);
            && GrantsMatch(s') && (s'.grants == s.grants || s'.grants == s.grants + [Grant(key, now)])
  {
    hide Decide;
  }

  lemma StepGrants(config: Config, s: State, e: Event)
    requires Linked(s) && Enabled(s, e) && GrantsMatch(s)
    ensures var s' := Step(config, s, e);
            && GrantsMatch(s') && s.grants <= s'.grants
            && (|s.grants| < |s'.grants| ==> e.Enter? && s'.grants == s.grants + [Grant(e.key, e.now)])
  {
    hide EnterStep;
    var s' := Step(config, s, e);
    if e.Enter? {
      EnterGrants(config, s, e.caller, e.key, e.now);
    } else {
      assert s'.grants == s.grants && |s'.calls| == |s.calls|;
      assert forall i :: 0 <= i < |s.calls| ==> s'.calls[i].key == s.calls[i].key;
    }
  }

  lemma {:induction false} RunGrants(config: Config, states: seq<State>, events: seq<Event>, j: nat)
    requires IsRun(config, states, events) && j < |states|
    ensures GrantsMatch(states[j])
  {
    hide Step, GrantsMatch, Linked;
    if j > 0 {
      RunGrants(config, states, events, j - 1);
      assert Moves(config, states[j - 1], events[j - 1], states[j]);
      StepGrants(config, states[j - 1], events[j - 1]);
    } else {
      NoGrants();
    }
  }

  lemma NoGrants()
    ensures GrantsMatch(INIT)
  {
  }

  /** Every call was begun by its leader, who asked for its key at the time of its grant. */
  lemma {:induction false} CallBegan(config: Config, states: seq<State>, events: seq<Event>, j: nat, id: nat) returns (m: nat)
    requires IsRun(config, states, events) && j < |states| && id < |states[j].calls|
    ensures |states[j].grants| == |states[j].calls|
    ensures m < j && events[m] == Enter(states[j].calls[id].leader, states[j].calls[id].key, states[j].grants[id].time)
    ensures |states[m].calls| == id
  {
    hide Inv, Linked, Step;
    RunGrants(config, states, events, j - 1);
    StepGrants(config, states[j - 1], events[j - 1]);
    RunKeeps(config, states, events, j - 1);
    assert Moves(config, states[j - 1], events[j - 1], states[j]);
    InvLinked(config, states[j - 1]);
    StepCalls(config, states[j - 1], events[j - 1], id);
    if id < |states[j - 1].calls| {
      m := CallBegan(config, states, events, j - 1, id);
      RunExtends(config, states, events, j - 1, j);
      assert CallExtends(states[j - 1].calls[id], states[j].calls[id]);
    } else {
      m := j - 1;
    }
  }

  /** A call's outcome is the one its leader's capture returned. */
  lemma {:induction false} OutcomeReported(config: Config, states: seq<State>, events: seq<Event>, j: nat, id: nat) returns (n: nat)
    requires IsRun(config, states, events) && j < |states| && id < |states[j].calls| && states[j].calls[id].progress.Done?
    ensures n < j && events[n] == Finish(states[j].calls[id].leader, states[j].calls[id].progress.outcome)
    ensures id < |states[n].calls|
  {
    hide Inv, Linked, Step;
    RunKeeps(config, states, events, j - 1);
    assert Moves(config, states[j - 1], events[j - 1], states[j]);
    InvLinked(config, states[j - 1]);
    StepCalls(config, states[j - 1], events[j - 1], id);
    n := j - 1;
    if id < |states[j - 1].calls| && states[j - 1].calls[id].progress == states[j].calls[id].progress {
      n := OutcomeReported(config, states, events, j - 1, id);
      RunExtends(config, states, events, j - 1, j);
      assert CallExtends(states[j - 1].calls[id], states[j].calls[id]);
    }
  }

  /** Whoever is answered, leader or waiter, gets what the capture returned that was run, for the
      very key it asked for, by the caller that began the call. */
  lemma AnswerIsCaptured(config: Config, states: seq<State>, events: seq<Event>, j: nat, c: int) returns (m: nat, n: nat)
    requires IsRun(config, states, events) && j < |states| && c in states[j].callers && states[j].callers[c].Answered?
    ensures m < n < j && events[m].Enter? && events[m].key == states[j].callers[c].key
    ensures |states[m].calls| == states[j].callers[c].call
    ensures events[n] == Finish(events[m].caller, states[j].callers[c].outcome)
  {
    hide Inv, Linked;
    var id := states[j].callers[c].call;
    RunKeeps(config, states, events, j);
    AnswerOk(config, states[j], c);
    m := CallBegan(config, states, events, j, id);
    n := OutcomeReported(config, states, events, j, id);
    if n <= m {
      RunExtends(config, states, events, n, m);
    }
  }

  lemma AnswerOk(config: Config, s: State, c: int)
    requires Inv(config, s) && c in s.callers && s.callers[c].Answered?
    ensures var Answered(key, id, outcome) := s.callers[c];
            id < |s.calls| && s.calls[id].key == key && s.calls[id].progress == Done(outcome)
  {
    assert CallerOk(s.calls, c, s.callers[c]);
  }

  /** Leaving a queue never changes any call but the one that was joined, and not even
      that one once it has finished; so a newer call under the same key is untouched. */
  lemma LateCancellationIsHarmless(config: Config, s: State, c: int, i: nat)
    requires Inv(config, s) && Linked(s) && c in s.callers && s.callers[c].Cancelling? && i < |s.calls|
    requires i != s.callers[c].call || s.calls[i].progress.Done?
    ensures LeaveStep(s, c).calls[i] == s.calls[i]
  {
  }

  // ----- The code

  /** The locked sections, each proved to be exactly one step; that every step keeps the
      invariant is StepKeeps. */
  class Coordinator {
    const config: Config
    var activeCaptures: int
    var inFlight: map<Key, nat>
    var activeByLogin: map<string, int>
    var rates: map<Key, Rate>
    var calls: seq<Call>                 // every call object made so far; an index stands for a pointer
    ghost var callers: map<int, Caller>
    ghost var grants: seq<Grant>
    ghost var clock: int

    ghost function Now(): State
      reads this
    {
      State(calls, inFlight, activeCaptures, activeByLogin, rates, callers, grants, clock)
    }

    constructor (config: Config)
      ensures this.config == config && Now() == INIT && Inv(config, Now())
    {
      this.config := config;
      activeCaptures, inFlight, activeByLogin, rates, calls := 0, map[], map[], map[], [];
      callers, grants, clock := map[], [], 0;
      new;
      InitOk(config);
    }

    /** The first locked section of Do. */
    method Enter(c: int, key: Key, now: int) returns (standing: Caller)
      requires Linked(Now())
      modifies this
      ensures Now() == old(EnterStep(config, Now(), c, key, now)) && c in callers && standing == callers[c]
    {
      clock := now;
      if key in inFlight {
        var id := inFlight[key];
        if calls[id].waiters >= config.maxWaiters {
          standing := Refused(key, TooManyWaiters);
        } else {
          calls := calls[id := calls[id].(waiters := calls[id].waiters + 1)];
          standing := Waiting(key, id);
        }
      } else if activeCaptures >= config.maxProcess {
        standing := Refused(key, TooManyCaptures);
      } else if LoginCount(activeByLogin, key.user) >= config.maxLogin {
        standing := Refused(key, TooManyForLogin);
      } else {
        standing := Admit(c, key, now);
        return;
      }
      callers := callers[c := standing];
    }

    method Admit(c: int, key: Key, now: int) returns (standing: Caller)
      modifies this
      ensures Now() == old(DecidedStep(config, Now(), c, key, now)) && c in callers && standing == callers[c]
    {
      hide Decide, LogAfter, Live, GrantsOf;
      var verdict, after := AllowLocked(config.rate, rates, key, now);
      grants := LogAfter(config.rate, rates, grants, key, now);
      rates, clock := after, now;
      if !verdict.Granted? {
        standing := Refused(key, RateRefused(verdict));
        callers := callers[c := standing];
        return;
      }
      var id := |calls|;
      calls := calls + [Call(key, c, 0, Running)];
      inFlight := inFlight[key := id];
      activeCaptures := activeCaptures + 1;
      activeByLogin := activeByLogin[key.user := LoginCount(activeByLogin, key.user) + 1];
      standing := Capturing(key, id);
      callers := callers[c := standing];
    }

    /** The second locked section of Do: the capture is over and its outcome published. */
    method Finish(c: int, key: Key, id: nat, outcome: Outcome)
      requires Linked(Now()) && c in callers && callers[c] == Capturing(key, id)
      modifies this
      ensures Now() == old(FinishStep(Now(), c, outcome))
    {
      calls := calls[id := calls[id].(progress := Done(outcome))];
      inFlight := inFlight - {key};
      activeCaptures := activeCaptures - 1;
      var left := LoginCount(activeByLogin, key.user) - 1;
      if left == 0 {
        activeByLogin := activeByLogin - {key.user};
      } else {
        activeByLogin := activeByLogin[key.user := left];
      }
      callers := callers[c := Answered(key, id, outcome)];
    }

    method RemoveWaiter(c: int, key: Key, id: nat)
      requires Linked(Now()) && c in callers && callers[c] == Cancelling(key, id)
      modifies this
      ensures Now() == old(LeaveStep(Now(), c))
    {
      if key in inFlight && inFlight[key] == id && calls[id].waiters > 0 {
        calls := calls[id := calls[id].(waiters := calls[id].waiters - 1)];
      }
      callers := callers[c := Cancelled(key, id)];
    }
  }
}
