/**
  The coalescing group (internal/singleflight/singleflight.go).

  A call is its position in `calls`, which keeps every call ever made; `flights` is the program's map.
  The steps are the lock sections and channel operations of Do, run and forget, interleaved freely
  among any number of callers. A call's load context has ended (`Expired`) once its deadline fired or
  it was cancelled.
 */
module Singleflight {
  import opened Common

  datatype Outcome = Value(v: string) | Failed(e: string) | Panicked(p: string)

  /** `late` is history: the deadline had fired when fn ended. */
  datatype Call = Call(
    key: string, deadline: int, fired: bool, done: Option<Outcome>, late: bool,
    forgotten: bool, cancelled: bool, waiting: int)

  datatype Result = Shared(outcome: Outcome) | TimedOut | OwnContext

  datatype Step = Waiting | SawExpired | Settled(result: Result) | Left(result: Result)

  datatype Caller = Caller(call: nat, key: string, ended: bool, step: Step)

  datatype State = State(now: int, flights: map<string, nat>, calls: seq<Call>, callers: map<nat, Caller>)

  predicate Expired(c: Call) {
    c.fired || c.cancelled
  }

  function Init(now: int): State {
    State(now, map[], [], map[])
  }

  datatype Action =
    | Do(id: nat, key: string, timeout: int)
    | FnEnds(call: nat, outcome: Outcome)
    | Forget(call: nat)
    | Cancel(call: nat)
    | Fire(call: nat)
    | Tick(dt: nat)
    | ContextEnds(id: nat)
    | TakeDone(id: nat)
    | TakeContext(id: nat)
    | SeeExpired(id: nat)
    | Settle(id: nat)
    | Leave(id: nat)

  predicate CallerAt(s: State, id: nat) {
    id in s.callers && s.callers[id].call < |s.calls|
  }

  predicate Enabled(s: State, a: Action) {
    match a
    case Do(id, key, timeout) => id !in s.callers && timeout > 0 && (key in s.flights ==> s.flights[key] < |s.calls|)
    case FnEnds(c, _) => c < |s.calls| && s.calls[c].done.None?
    case Forget(c) => c < |s.calls| && s.calls[c].done.Some? && !s.calls[c].forgotten
    case Cancel(c) => c < |s.calls| && s.calls[c].forgotten && !s.calls[c].cancelled
    case Fire(c) => c < |s.calls| && s.now >= s.calls[c].deadline && !Expired(s.calls[c])
    case Tick(_) => true
    case ContextEnds(id) => id in s.callers
    case TakeDone(id) => CallerAt(s, id) && s.callers[id].step.Waiting? && s.calls[s.callers[id].call].done.Some?
    case TakeContext(id) => CallerAt(s, id) && s.callers[id].step.Waiting? && s.callers[id].ended
    case SeeExpired(id) => CallerAt(s, id) && s.callers[id].step.Waiting? && Expired(s.calls[s.callers[id].call])
    case Settle(id) => CallerAt(s, id) && s.callers[id].step.SawExpired?
    case Leave(id) => CallerAt(s, id) && s.callers[id].step.Settled?
  }

  // ---- The lock sections ----

  /** The call a Do of `key` joins, if there is one to join. */
  function Joined(flights: map<string, nat>, calls: seq<Call>, key: string): Option<nat>
    requires key in flights ==> flights[key] < |calls|
  {
    if key in flights && !Expired(calls[flights[key]]) then Some(flights[key]) else None
  }

  function NewCall(key: string, deadline: int): Call {
    Call(key, deadline, false, None, false, false, false, 1)
  }

  function JoinedState(s: State, id: nat, key: string, c: nat): State
    requires c < |s.calls|
  {
    s.(calls := s.calls[c := s.calls[c].(waiting := s.calls[c].waiting + 1)],
       callers := s.callers[id := Caller(c, key, false, Waiting)])
  }

  function AfterDo(s: State, id: nat, key: string, timeout: int): State
    requires key in s.flights ==> s.flights[key] < |s.calls|
  {
    match Joined(s.flights, s.calls, key)
    case Some(c) => JoinedState(s, id, key, c)
    case None =>
      s.(calls := s.calls + [NewCall(key, s.now + timeout)],
         flights := s.flights[key := |s.calls|],
         callers := s.callers[id := Caller(|s.calls|, key, false, Waiting)])
  }

  /** forget: the flight goes only if the map still holds this call. */
  function AfterForget(s: State, c: nat): State
    requires c < |s.calls|
  {
    var k := s.calls[c].key;
    s.(calls := s.calls[c := s.calls[c].(forgotten := true)],
       flights := if k in s.flights && s.flights[k] == c then s.flights - {k} else s.flights)
  }

  function WithStep(s: State, id: nat, step: Step): State
    requires id in s.callers
  {
    s.(callers := s.callers[id := s.callers[id].(step := step)])
  }

  function Next(s: State, a: Action): State
    requires Enabled(s, a)
  {
    match a
    case Do(id, key, timeout) => AfterDo(s, id, key, timeout)
    case FnEnds(c, outcome) => s.(calls := s.calls[c := s.calls[c].(done := Some(outcome), late := s.calls[c].fired)])
    case Forget(c) => AfterForget(s, c)
    case Cancel(c) => s.(calls := s.calls[c := s.calls[c].(cancelled := true)])
    case Fire(c) => s.(calls := s.calls[c := s.calls[c].(fired := true)])
    case Tick(dt) => s.(now := s.now + dt)
    case ContextEnds(id) => s.(callers := s.callers[id := s.callers[id].(ended := true)])
    case TakeDone(id) => WithStep(s, id, Settled(Shared(s.calls[s.callers[id].call].done.value)))
    case TakeContext(id) => WithStep(s, id, Settled(OwnContext))
    case SeeExpired(id) => WithStep(s, id, SawExpired)
    case Settle(id) =>
      var done := s.calls[s.callers[id].call].done;
      WithStep(s, id, Settled(if done.Some? then Shared(done.value) else TimedOut))
    case Leave(id) =>
      var c := s.callers[id].call;
      WithStep(s.(calls := s.calls[c := s.calls[c].(waiting := s.calls[c].waiting - 1)]), id,
        Left(s.callers[id].step.result))
  }

  // ---- The group ----

  class Group {
    var flights: map<string, nat>
    var calls: seq<Call>
    ghost var now: int
    ghost var callers: map<nat, Caller>

    ghost function View(): State
      reads this
    {
      State(now, flights, calls, callers)
    }

    constructor (ghost start: int)
      ensures View() == Init(start)
    {
      flights, calls, callers, now := map[], [], map[], start;
    }

    /** The locked part of Do: joins the flight of `key`, or replaces it and says so. */
    method Join(ghost id: nat, key: string, clock: int, timeout: int) returns (call: nat, leads: bool)
      requires clock == now && Enabled(View(), Do(id, key, timeout))
      modifies this
      ensures View() == Next(old(View()), Do(id, key, timeout))
      ensures call == View().callers[id].call && (leads <==> call == |old(calls)|)
    {
      var inFlight := key in flights;
      if inFlight && Expired(calls[flights[key]]) {
        inFlight := false;
      }
      if !inFlight {
        call, leads := |calls|, true;
        calls := calls + [Call(key, clock + timeout, false, None, false, false, false, 0)];
        flights := flights[key := call];
      } else {
        call, leads := flights[key], false;
      }
      calls := calls[call := calls[call].(waiting := calls[call].waiting + 1)];
      callers := callers[id := Caller(call, key, false, Waiting)];
    }

    /** The deferred end of Do. */
    method Depart(ghost id: nat, call: nat)
      requires Enabled(View(), Leave(id)) && callers[id].call == call
      modifies this
      ensures View() == Next(old(View()), Leave(id))
    {
      calls := calls[call := calls[call].(waiting := calls[call].waiting - 1)];
      callers := callers[id := callers[id].(step := Left(callers[id].step.result))];
    }

    method Drop(key: string, call: nat)
      requires Enabled(View(), Forget(call)) && calls[call].key == key
      modifies this
      ensures View() == Next(old(View()), Forget(call))
    {
      if key in flights && flights[key] == call {
        flights := flights - {key};
      }
      calls := calls[call := calls[call].(forgotten := true)];
    }

    /** How many callers wait on the load of `key`, as Inv makes `waiting` count them. */
    method WaitingOn(key: string) returns (n: int)
      requires Inv(View())
      ensures n == if key in flights then |Waiters(View(), flights[key])| else 0
    {
      if key in flights {
        assert CallOk(View(), flights[key]);
        return calls[flights[key]].waiting;
      }
      n := 0;
    }
  }

  // ---- The invariant ----

  ghost function Waiters(s: State, c: nat): set<nat> {
    set id | id in s.callers && s.callers[id].call == c && !s.callers[id].step.Left?
  }

  /** What holds of one call: the order of its end, and when its context can have ended. */
  ghost predicate CallOk(s: State, c: nat)
    requires c < |s.calls|
  {
    var call := s.calls[c];
    && (call.cancelled ==> call.forgotten)
    && (call.forgotten ==> call.done.Some?)
    && (call.fired ==> call.deadline <= s.now)
    && (call.late ==> call.fired)
    && call.waiting == |Waiters(s, c)|
  }

  /** The flight map holds every call that is neither expired nor forgotten, and no forgotten one. */
  ghost predicate FlightsOk(flights: map<string, nat>, calls: seq<Call>) {
    && (forall k :: k in flights ==>
          flights[k] < |calls| && calls[flights[k]].key == k && !calls[flights[k]].forgotten)
    && (forall c :: 0 <= c < |calls| && !Expired(calls[c]) && !calls[c].forgotten ==>
          calls[c].key in flights && flights[calls[c].key] == c)
  }

  /** A result is the call's own: its outcome, a deadline that fired before fn ended, or the caller's context. */
  ghost predicate ResultOk(call: Call, ended: bool, r: Result) {
    match r
    case Shared(outcome) => call.done == Some(outcome)
    case TimedOut => call.fired && (call.done.Some? ==> call.late)
    case OwnContext => ended
  }

  ghost predicate CallerOk(calls: seq<Call>, caller: Caller) {
    && caller.call < |calls|
    && calls[caller.call].key == caller.key
    && match caller.step
       case Waiting => true
       case SawExpired => Expired(calls[caller.call])
       case Settled(r) => ResultOk(calls[caller.call], caller.ended, r)
       case Left(r) => ResultOk(calls[caller.call], caller.ended, r)
  }

  ghost predicate Inv(s: State) {
    && FlightsOk(s.flights, s.calls)
    && (forall c :: 0 <= c < |s.calls| ==> CallOk(s, c))
    && (forall id :: id in s.callers ==> CallerOk(s.calls, s.callers[id]))
  }

  // ---- Preservation ----

  /** A change of one call that never takes back an end. */
  ghost predicate Progress(a: Call, b: Call) {
    && a.key == b.key && a.deadline == b.deadline
    && (a.fired ==> b.fired) && (a.cancelled ==> b.cancelled) && (a.forgotten ==> b.forgotten)
    && (a.done.Some? ==> b.done == a.done && b.late == a.late)
    && (a.done.None? && a.fired && b.done.Some? ==> b.late)
  }

  lemma CallerSurvives(a: seq<Call>, b: seq<Call>, caller: Caller)
    requires CallerOk(a, caller) && |a| <= |b| && forall c :: 0 <= c < |a| ==> Progress(a[c], b[c])
    ensures CallerOk(b, caller)
  {
  }

  /** One call moves on; nobody joins or leaves. */
  lemma CallMoves(s: State, c: nat, call: Call, flights: map<string, nat>)
    requires Inv(s) && c < |s.calls| && Progress(s.calls[c], call) && call.waiting == s.calls[c].waiting
    requires FlightsOk(flights, s.calls[c := call])
    requires (call.cancelled ==> call.forgotten) && (call.forgotten ==> call.done.Some?)
    requires (call.fired ==> call.deadline <= s.now) && (call.late ==> call.fired)
    ensures Inv(s.(calls := s.calls[c := call], flights := flights))
  {
    var t := s.(calls := s.calls[c := call], flights := flights);
    forall d | 0 <= d < |t.calls|
      ensures CallOk(t, d)
    {
      assert CallOk(s, d);
      assert Waiters(t, d) == Waiters(s, d);
    }
    forall id | id in t.callers
      ensures CallerOk(t.calls, t.callers[id])
    {
      CallerSurvives(s.calls, t.calls, s.callers[id]);
    }
  }

  /** A caller moves on without leaving. */
  lemma CallerMoves(s: State, id: nat, caller: Caller)
    requires Inv(s) && id in s.callers && CallerOk(s.calls, caller) && caller.call == s.callers[id].call
    requires caller.step.Left? <==> s.callers[id].step.Left?
    ensures Inv(s.(callers := s.callers[id := caller]))
  {
    var t := s.(callers := s.callers[id := caller]);
    forall c | 0 <= c < |t.calls|
      ensures CallOk(t, c)
    {
      assert CallOk(s, c);
      assert Waiters(t, c) == Waiters(s, c);
    }
  }

  /** Counting waiters does not touch the flight map's invariant. */
  lemma SameFlights(flights: map<string, nat>, a: seq<Call>, c: nat, waiting: int)
    requires FlightsOk(flights, a) && c < |a|
    ensures FlightsOk(flights, a[c := a[c].(waiting := waiting)])
  {
  }

  lemma JoinCounts(s: State, id: nat, key: string, c: nat, d: nat)
    requires id !in s.callers && c < |s.calls| && d < |s.calls| && CallOk(s, d)
    ensures CallOk(JoinedState(s, id, key, c), d)
  {
    var t := JoinedState(s, id, key, c);
    assert Waiters(t, d) == if d == c then Waiters(s, d) + {id} else Waiters(s, d);
  }

  lemma JoinKeeps(s: State, id: nat, key: string, c: nat)
    requires Inv(s) && id !in s.callers && c < |s.calls| && s.calls[c].key == key
    ensures Inv(JoinedState(s, id, key, c))
  {
    hide FlightsOk, CallOk, Waiters;
    var t := JoinedState(s, id, key, c);
    SameFlights(s.flights, s.calls, c, s.calls[c].waiting + 1);
    forall d | 0 <= d < |t.calls|
      ensures CallOk(t, d)
    {
      JoinCounts(s, id, key, c, d);
    }
    forall i | i in t.callers
      ensures CallerOk(t.calls, t.callers[i])
    {
      if i != id {
        CallerSurvives(s.calls, t.calls, s.callers[i]);
      }
    }
  }

  lemma LeadKeepsCall(s: State, id: nat, key: string, timeout: int, d: nat)
    requires id !in s.callers && d < |s.calls| && CallOk(s, d)
    requires key in s.flights ==> s.flights[key] < |s.calls|
    requires Joined(s.flights, s.calls, key) == None
    ensures CallOk(AfterDo(s, id, key, timeout), d)
  {
    assert Waiters(AfterDo(s, id, key, timeout), d) == Waiters(s, d);
  }

  lemma LeadStartsCall(s: State, id: nat, key: string, timeout: int)
    requires id !in s.callers && Waiters(s, |s.calls|) == {}
    requires key in s.flights ==> s.flights[key] < |s.calls|
    requires Joined(s.flights, s.calls, key) == None
    ensures CallOk(AfterDo(s, id, key, timeout), |s.calls|)
  {
    assert Waiters(AfterDo(s, id, key, timeout), |s.calls|) == Waiters(s, |s.calls|) + {id};
  }

  lemma LeadFlights(s: State, id: nat, key: string, timeout: int)
    requires Inv(s) && Joined(s.flights, s.calls, key) == None
    ensures var t := AfterDo(s, id, key, timeout); FlightsOk(t.flights, t.calls)
  {
  }

  lemma LeadKeeps(s: State, id: nat, key: string, timeout: int)
    requires Inv(s) && id !in s.callers && Joined(s.flights, s.calls, key) == None
    ensures Inv(AfterDo(s, id, key, timeout))
  {
    hide CallOk;
    var t := AfterDo(s, id, key, timeout);
    forall d | 0 <= d < |t.calls|
      ensures CallOk(t, d)
    {
      if d < |s.calls| {
        LeadKeepsCall(s, id, key, timeout, d);
      } else {
        NoWaiterYet(s);
        LeadStartsCall(s, id, key, timeout);
      }
    }
    forall i | i in t.callers
      ensures CallerOk(t.calls, t.callers[i])
    {
      if i != id {
        CallerSurvives(s.calls, t.calls, s.callers[i]);
      }
    }
    LeadFlights(s, id, key, timeout);
  }

  lemma NoWaiterYet(s: State)
    requires Inv(s)
    ensures Waiters(s, |s.calls|) == {}
  {
  }

  lemma LeaveCounts(s: State, id: nat, d: nat)
    requires Enabled(s, Leave(id)) && d < |s.calls| && CallOk(s, d)
    ensures CallOk(Next(s, Leave(id)), d)
  {
    var t := Next(s, Leave(id));
    if d == s.callers[id].call {
      assert id in Waiters(s, d);
      assert Waiters(t, d) == Waiters(s, d) - {id};
    } else {
      assert Waiters(t, d) == Waiters(s, d);
    }
  }

  lemma LeaveKeeps(s: State, id: nat)
    requires Inv(s) && Enabled(s, Leave(id))
    ensures Inv(Next(s, Leave(id)))
  {
    hide FlightsOk, CallOk, Waiters;
    var t := Next(s, Leave(id));
    var c := s.callers[id].call;
    SameFlights(s.flights, s.calls, c, s.calls[c].waiting - 1);
    forall d | 0 <= d < |t.calls|
      ensures CallOk(t, d)
    {
      LeaveCounts(s, id, d);
    }
    forall i | i in t.callers
      ensures CallerOk(t.calls, t.callers[i])
    {
      CallerSurvives(s.calls, t.calls, s.callers[i]);
    }
  }

  lemma TickKeeps(s: State, dt: nat)
    requires Inv(s)
    ensures Inv(s.(now := s.now + dt))
  {
    var t := s.(now := s.now + dt);
    forall c | 0 <= c < |t.calls|
      ensures CallOk(t, c)
    {
      assert CallOk(s, c) && Waiters(t, c) == Waiters(s, c);
    }
  }

  lemma StepKeeps(s: State, a: Action)
    requires Inv(s) && Enabled(s, a)
    ensures Inv(Next(s, a))
  {
    match a {
      case Do(id, key, timeout) =>
        match Joined(s.flights, s.calls, key) {
          case Some(c) => JoinKeeps(s, id, key, c);
          case None => LeadKeeps(s, id, key, timeout);
        }
      case Tick(dt) => TickKeeps(s, dt);
      case Leave(id) => LeaveKeeps(s, id);
      case _ =>
        if a.FnEnds? || a.Forget? || a.Cancel? || a.Fire? {
          EndingKeeps(s, a);
        } else {
          CallerStepKeeps(s, a);
        }
    }
  }

  lemma EndingKeeps(s: State, a: Action)
    requires Inv(s) && Enabled(s, a) && (a.FnEnds? || a.Forget? || a.Cancel? || a.Fire?)
    ensures Inv(Next(s, a))
  {
    var c := a.call;
    assert CallOk(s, c);
    var t := Next(s, a);
    assert t == s.(calls := s.calls[c := t.calls[c]], flights := t.flights);
    CallMoves(s, c, t.calls[c], t.flights);
  }

  lemma CallerStepKeeps(s: State, a: Action)
    requires Inv(s) && Enabled(s, a)
    requires a.ContextEnds? || a.TakeDone? || a.TakeContext? || a.SeeExpired? || a.Settle?
    ensures Inv(Next(s, a))
  {
    var t := Next(s, a);
    assert CallerOk(s.calls, s.callers[a.id]) && CallOk(s, s.callers[a.id].call);
    CallerMoves(s, a.id, t.callers[a.id]);
  }

  // ---- Every run ----

  predicate Runs(s: State, acts: seq<Action>)
    decreases |acts|
  {
    acts == [] || (Enabled(s, acts[0]) && Runs(Next(s, acts[0]), acts[1..]))
  }

  function After(s: State, acts: seq<Action>): State
    requires Runs(s, acts)
    decreases |acts|
  {
    if acts == [] then s else After(Next(s, acts[0]), acts[1..])
  }

  lemma RunFirst(s: State, a: Action, rest: seq<Action>)
    requires Enabled(s, a) && Runs(Next(s, a), rest)
    ensures Runs(s, [a] + rest) && After(s, [a] + rest) == After(Next(s, a), rest)
  {
  }

  lemma {:induction false} RunKeeps(s: State, acts: seq<Action>)
    requires Inv(s) && Runs(s, acts)
    ensures Inv(After(s, acts))
    decreases |acts|
  {
    if acts == [] {
    } else {
      StepKeeps(s, acts[0]);
      RunKeeps(Next(s, acts[0]), acts[1..]);
    }
  }

  lemma Reachable(now: int, acts: seq<Action>)
    requires Runs(Init(now), acts)
    ensures Inv(After(Init(now), acts))
  {
    RunKeeps(Init(now), acts);
  }

  /** At most one call per key is neither expired nor forgotten, so at most one load per key runs in time. */
  lemma {:induction false} OneLiveLoadPerKey(now: int, acts: seq<Action>, a: nat, b: nat)
    requires Runs(Init(now), acts)
    requires var s := After(Init(now), acts);
             && a < |s.calls| && b < |s.calls| && s.calls[a].key == s.calls[b].key
             && s.calls[a].done.None? && !s.calls[a].fired && s.calls[b].done.None? && !s.calls[b].fired
    ensures var s := After(Init(now), acts); a == b && s.calls[a].key in s.flights && s.flights[s.calls[a].key] == a
  {
    Reachable(now, acts);
    var s := After(Init(now), acts);
    assert CallOk(s, a) && CallOk(s, b);
    assert !Expired(s.calls[a]) && !s.calls[a].forgotten && !Expired(s.calls[b]) && !s.calls[b].forgotten;
  }

  /** In every reachable state a call's `waiting` counts the callers that joined it and have not left. */
  lemma WaitingCounts(now: int, acts: seq<Action>, c: nat)
    requires Runs(Init(now), acts) && c < |After(Init(now), acts).calls|
    ensures After(Init(now), acts).calls[c].waiting == |Waiters(After(Init(now), acts), c)|
  {
    Reachable(now, acts);
    assert CallOk(After(Init(now), acts), c);
  }

  /**
    What a caller returns belongs to the call of its own key that it joined: that call's outcome, or
    a timeout whose deadline was reached and fired before fn ended, or the end of its own context.
   */
  lemma {:induction false} ResultsAreOwn(now: int, acts: seq<Action>, id: nat)
    requires Runs(Init(now), acts)
    requires var s := After(Init(now), acts); id in s.callers && s.callers[id].step.Left?
    ensures var s := After(Init(now), acts);
            var caller := s.callers[id];
            caller.call < |s.calls| && s.calls[caller.call].key == caller.key &&
            match caller.step.result
            case Shared(outcome) => s.calls[caller.call].done == Some(outcome)
            case TimedOut =>
              && s.calls[caller.call].fired && s.calls[caller.call].deadline <= s.now
              && (s.calls[caller.call].done.Some? ==> s.calls[caller.call].late)
            case OwnContext => caller.ended
  {
    Reachable(now, acts);
    var s := After(Init(now), acts);
    assert CallerOk(s.calls, s.callers[id]) && CallOk(s, s.callers[id].call);
  }

  // ---- Replacement ----

  /** A call nobody can join any more. */
  predicate Retired(s: State, c: nat) {
    c < |s.calls| && (Expired(s.calls[c]) || s.calls[c].forgotten)
  }

  lemma StepKeepsRetired(s: State, a: Action, c: nat, id: nat)
    requires Inv(s) && Enabled(s, a) && Retired(s, c)
    ensures Retired(Next(s, a), c)
    ensures id in Next(s, a).callers && id !in s.callers ==> Next(s, a).callers[id].call != c
    ensures id in s.callers ==> id in Next(s, a).callers && Next(s, a).callers[id].call == s.callers[id].call
  {
  }

  /** Once a call's deadline has fired, or it was forgotten, no later caller ever joins it, even if fn never returns. */
  lemma {:induction false} RetiredIsNeverJoined(s: State, acts: seq<Action>, c: nat, id: nat)
    requires Inv(s) && Runs(s, acts) && Retired(s, c)
    requires id !in s.callers && id in After(s, acts).callers
    ensures After(s, acts).callers[id].call != c
    decreases |acts|
  {
    if acts == [] {
    } else {
      var t := Next(s, acts[0]);
      StepKeeps(s, acts[0]);
      StepKeepsRetired(s, acts[0], c, id);
      if id in t.callers {
        CallIsKept(t, acts[1..], id);
      } else {
        RetiredIsNeverJoined(t, acts[1..], c, id);
      }
    }
  }

  lemma {:induction false} CallIsKept(s: State, acts: seq<Action>, id: nat)
    requires Runs(s, acts) && id in s.callers
    ensures id in After(s, acts).callers && After(s, acts).callers[id].call == s.callers[id].call
    decreases |acts|
  {
    if acts == [] {
    } else {
      CallIsKept(Next(s, acts[0]), acts[1..], id);
    }
  }

  lemma StepKeepsKeys(s: State, a: Action, c: nat)
    requires Inv(s) && Enabled(s, a) && c < |s.calls|
    ensures c < |Next(s, a).calls| && Next(s, a).calls[c].key == s.calls[c].key
  {
  }

  /** A call stays in the map, whatever else happens, until it is itself retired. */
  lemma {:induction false} UnretiredStaysInMap(s: State, acts: seq<Action>, c: nat)
    requires Inv(s) && Runs(s, acts) && c < |s.calls|
    ensures var t := After(s, acts);
            && c < |t.calls| && t.calls[c].key == s.calls[c].key
            && (!Retired(t, c) ==> s.calls[c].key in t.flights && t.flights[s.calls[c].key] == c)
    decreases |acts|
  {
    if acts == [] {
    } else {
      StepKeeps(s, acts[0]);
      StepKeepsKeys(s, acts[0], c);
      UnretiredStaysInMap(Next(s, acts[0]), acts[1..], c);
    }
  }

  /**
    A hung call is replaced by the next Do of its key, and nothing that follows, its own late end and
    forget included, takes the successor out of the map before the successor is retired.
   */
  lemma LateForgetSparesSuccessor(s: State, c: nat, id: nat, timeout: int, acts: seq<Action>)
    requires Inv(s) && c < |s.calls| && s.calls[c].fired && s.calls[c].done.None?
    requires Joined(s.flights, s.calls, s.calls[c].key) == None
    requires Enabled(s, Do(id, s.calls[c].key, timeout)) && Runs(Next(s, Do(id, s.calls[c].key, timeout)), acts)
    ensures var k := s.calls[c].key;
            var t := After(Next(s, Do(id, k, timeout)), acts);
            && Next(s, Do(id, k, timeout)).callers[id].call == |s.calls| != c
            && (!Retired(t, |s.calls|) ==> k in t.flights && t.flights[k] == |s.calls|)
  {
    StepKeeps(s, Do(id, s.calls[c].key, timeout));
    UnretiredStaysInMap(Next(s, Do(id, s.calls[c].key, timeout)), acts, |s.calls|);
  }

  /** A Do joins a call that exists exactly when it is a call of its key that is not retired: finished or not. */
  lemma JoinedExactlyWhenUnretired(s: State, id: nat, key: string, timeout: int, c: nat)
    requires Inv(s) && Enabled(s, Do(id, key, timeout)) && c < |s.calls|
    ensures Next(s, Do(id, key, timeout)).callers[id].call == c <==> s.calls[c].key == key && !Retired(s, c)
  {
  }

  /** A Do starts a new call exactly when every call of its key is retired. */
  lemma StartsExactlyWhenAllRetired(s: State, id: nat, key: string, timeout: int)
    requires Inv(s) && Enabled(s, Do(id, key, timeout))
    ensures |Next(s, Do(id, key, timeout)).calls| == |s.calls| + 1 <==>
            forall c :: 0 <= c < |s.calls| && s.calls[c].key == key ==> Retired(s, c)
  {
  }

  /** A call that has finished can still be joined until it is forgotten: the next Do need not run fn again. */
  lemma FinishedCallCanStillBeJoined(now: int, key: string, outcome: Outcome)
    ensures var acts := [Do(0, key, 1), FnEnds(0, outcome), Do(1, key, 1)];
            && Runs(Init(now), acts)
            && 1 in After(Init(now), acts).callers
            && After(Init(now), acts).callers[1].call == 0
            && |After(Init(now), acts).calls| == 1
  {
    var s1 := Next(Init(now), Do(0, key, 1));
    var s2 := Next(s1, FnEnds(0, outcome));
    var s3 := Next(s2, Do(1, key, 1));
    RunFirst(s2, Do(1, key, 1), []);
    assert [Do(1, key, 1)] + [] == [Do(1, key, 1)];
    RunFirst(s1, FnEnds(0, outcome), [Do(1, key, 1)]);
    assert [FnEnds(0, outcome)] + [Do(1, key, 1)] == [FnEnds(0, outcome), Do(1, key, 1)];
    RunFirst(Init(now), Do(0, key, 1), [FnEnds(0, outcome), Do(1, key, 1)]);
    assert [Do(0, key, 1)] + [FnEnds(0, outcome), Do(1, key, 1)] == [Do(0, key, 1), FnEnds(0, outcome), Do(1, key, 1)];
    assert s3.callers[1].call == 0;
  }
}
