/**
  What the coalescing group must still do (internal/singleflight/singleflight.go): every waiting caller can
  return as soon as its load has ended, its own context has, or the load's deadline has fired; and a
  deadline fires neither before its time nor never.
 */
module SingleflightUse {
  import opened Common
  import opened Singleflight

  /** Nothing but the step of caller `id`, which returns `r`, and the count of those waiting with it has changed. */
  ghost predicate Returned(s: State, t: State, id: nat, r: Singleflight.Result) {
    && CallerAt(s, id)
    && var c := s.callers[id].call;
       && t.callers == s.callers[id := s.callers[id].(step := Left(r))]
       && t.calls == s.calls[c := s.calls[c].(waiting := s.calls[c].waiting - 1)]
       && t.flights == s.flights && t.now == s.now
  }

  /** Do never waits: any caller may ask for any key at any time, and is then waiting on a call of that key. */
  lemma DoAlwaysEnters(s: State, id: nat, key: string, timeout: int)
    requires Inv(s) && id !in s.callers && timeout > 0
    ensures Enabled(s, Do(id, key, timeout))
    ensures var t := Next(s, Do(id, key, timeout));
            && id in t.callers && t.callers[id].key == key && t.callers[id].step == Waiting && !t.callers[id].ended
            && t.callers[id].call < |t.calls| && t.calls[t.callers[id].call].key == key
            && (t.callers[id].call == |s.calls| ==>
                  t.calls[|s.calls|].done.None? && !t.calls[|s.calls|].fired && !t.calls[|s.calls|].cancelled)
  {
  }

  lemma TwoSteps(s: State, a: Action, b: Action)
    requires Enabled(s, a) && Enabled(Next(s, a), b)
    ensures Runs(s, [a, b]) && After(s, [a, b]) == Next(Next(s, a), b)
  {
    hide Enabled, Next;
    var t := Next(s, a);
    assert Runs(Next(t, b), []);
    RunFirst(t, b, []);
    assert [b] + [] == [b];
    RunFirst(s, a, [b]);
    assert [a] + [b] == [a, b];
  }

  lemma ThreeSteps(s: State, a: Action, b: Action, c: Action)
    requires Enabled(s, a) && Enabled(Next(s, a), b) && Enabled(Next(Next(s, a), b), c)
    ensures Runs(s, [a, b, c]) && After(s, [a, b, c]) == Next(Next(Next(s, a), b), c)
  {
    hide Enabled, Next;
    TwoSteps(Next(s, a), b, c);
    RunFirst(s, a, [b, c]);
    assert [a] + [b, c] == [a, b, c];
  }

  /** Once fn has ended, every caller still waiting on the call returns its outcome, and leaves. */
  lemma WaiterGetsOutcome(s: State, id: nat)
    requires CallerAt(s, id) && s.callers[id].step.Waiting? && s.calls[s.callers[id].call].done.Some?
    ensures Runs(s, [TakeDone(id), Leave(id)])
    ensures Returned(s, After(s, [TakeDone(id), Leave(id)]), id, Shared(s.calls[s.callers[id].call].done.value))
  {
    TwoSteps(s, TakeDone(id), Leave(id));
  }

  /** A caller whose own context has ended returns at once, and the load it leaves goes on undisturbed. */
  lemma WaiterGivesUp(s: State, id: nat)
    requires CallerAt(s, id) && s.callers[id].step.Waiting? && s.callers[id].ended
    ensures Runs(s, [TakeContext(id), Leave(id)])
    ensures Returned(s, After(s, [TakeContext(id), Leave(id)]), id, OwnContext)
  {
    TwoSteps(s, TakeContext(id), Leave(id));
  }

  /** A caller whose load has passed its deadline returns too: the outcome if there is one already, else a timeout. */
  lemma WaiterTimesOut(s: State, id: nat)
    requires CallerAt(s, id) && s.callers[id].step.Waiting? && s.calls[s.callers[id].call].fired
    ensures Runs(s, [SeeExpired(id), Settle(id), Leave(id)])
    ensures var done := s.calls[s.callers[id].call].done;
            Returned(s, After(s, [SeeExpired(id), Settle(id), Leave(id)]), id,
                     if done.Some? then Shared(done.value) else TimedOut)
  {
    ThreeSteps(s, SeeExpired(id), Settle(id), Leave(id));
  }

  /**
    A load that has not ended can always end: its outcome is there for all who wait, and its key is free
    unless another call has taken it over.
   */
  lemma LoadCanEnd(s: State, c: nat, outcome: Outcome)
    requires Inv(s) && c < |s.calls| && s.calls[c].done.None?
    ensures Runs(s, [FnEnds(c, outcome), Forget(c), Cancel(c)])
    ensures var t := After(s, [FnEnds(c, outcome), Forget(c), Cancel(c)]);
            var k := s.calls[c].key;
            && |t.calls| == |s.calls| && t.calls[c].done == Some(outcome) && t.calls[c].waiting == s.calls[c].waiting
            && (forall d :: 0 <= d < |s.calls| && d != c ==> t.calls[d] == s.calls[d])
            && t.callers == s.callers && t.now == s.now
            && (k in s.flights && s.flights[k] == c ==> t.flights == s.flights - {k})
            && (k in s.flights && s.flights[k] != c ==> t.flights == s.flights)
  {
    assert CallOk(s, c);
    ThreeSteps(s, FnEnds(c, outcome), Forget(c), Cancel(c));
  }

  // ---- Deadlines ----

  lemma StepKeepsDeadline(s: State, a: Action, c: nat)
    requires Enabled(s, a) && c < |s.calls|
    ensures c < |Next(s, a).calls| && Next(s, a).calls[c].deadline == s.calls[c].deadline
  {
  }

  lemma {:induction false} RunKeepsDeadline(s: State, acts: seq<Action>, c: nat)
    requires Runs(s, acts) && c < |s.calls|
    ensures c < |After(s, acts).calls| && After(s, acts).calls[c].deadline == s.calls[c].deadline
    decreases |acts|
  {
    if acts == [] {
    } else {
      hide Next, Enabled;
      StepKeepsDeadline(s, acts[0], c);
      RunKeepsDeadline(Next(s, acts[0]), acts[1..], c);
    }
  }

  /**
    The call a Do starts at one time with a timeout times out at their sum: after any run its deadline has
    not fired, and nobody has returned a timeout, before then; and from then on it can fire.
   */
  lemma TimesOutOnTime(s: State, id: nat, key: string, timeout: int, acts: seq<Action>, other: nat)
    requires Inv(s) && Enabled(s, Do(id, key, timeout)) && Next(s, Do(id, key, timeout)).callers[id].call == |s.calls|
    requires Runs(Next(s, Do(id, key, timeout)), acts)
    ensures var t := After(Next(s, Do(id, key, timeout)), acts);
            var c := |s.calls|;
            && c < |t.calls|
            && (t.calls[c].fired ==> s.now + timeout <= t.now)
            && (other in t.callers && t.callers[other].call == c && t.callers[other].step == Left(TimedOut) ==>
                  s.now + timeout <= t.now)
            && (s.now + timeout <= t.now && !t.calls[c].fired && !t.calls[c].cancelled ==> Enabled(t, Fire(c)))
  {
    var start := Do(id, key, timeout);
    StartsAt(s, id, key, timeout);
    StepKeeps(s, start);
    RunKeeps(Next(s, start), acts);
    RunKeepsDeadline(Next(s, start), acts, |s.calls|);
    var t := After(Next(s, start), acts);
    assert CallOk(t, |s.calls|);
    if other in t.callers {
      assert CallerOk(t.calls, t.callers[other]);
    }
  }

  lemma StartsAt(s: State, id: nat, key: string, timeout: int)
    requires Inv(s) && Enabled(s, Do(id, key, timeout)) && Next(s, Do(id, key, timeout)).callers[id].call == |s.calls|
    ensures var t := Next(s, Do(id, key, timeout));
            |t.calls| == |s.calls| + 1 && t.calls[|s.calls|].deadline == s.now + timeout
  {
  }

  /** A load nobody can be hurried by: whatever hangs, from its deadline on every caller of it can return. */
  lemma NobodyHangs(s: State, id: nat)
    requires Inv(s) && id in s.callers && s.callers[id].step.Waiting?
    requires s.calls[s.callers[id].call].done.None? && s.calls[s.callers[id].call].deadline <= s.now
    ensures var c := s.callers[id].call;
            var fire := if s.calls[c].fired then [] else [Fire(c)];
            && Runs(s, fire + [SeeExpired(id), Settle(id), Leave(id)])
            && id in After(s, fire + [SeeExpired(id), Settle(id), Leave(id)]).callers
            && After(s, fire + [SeeExpired(id), Settle(id), Leave(id)]).callers[id].step == Left(TimedOut)
  {
    var c := s.callers[id].call;
    assert CallerOk(s.calls, s.callers[id]) && CallOk(s, c);
    var last := [SeeExpired(id), Settle(id), Leave(id)];
    if s.calls[c].fired {
      WaiterTimesOut(s, id);
      assert [] + last == last;
    } else {
      var t := Next(s, Fire(c));
      WaiterTimesOut(t, id);
      RunFirst(s, Fire(c), last);
    }
  }
}
