/** Concrete runs into the two hazards, for every number of sinks that allows them. */
module Witness {
  import opened Wrappers
  import opened LogEvents
  import opened Protocol
  import opened Invariant
  import opened Progress
  import opened Hazards
  import opened BigSteps

  /** A sink that filters nothing and holds a sleeping retry thread with this queue. */
  predicate Retrying(k: Sink, queue: seq<Ticket>) {
    && k.minLevel == Finest && k.entry.At? && k.entry.id in k.threads
    && k.threads[k.entry.id] == Retry(queue, Asleep)
  }

  predicate Untouched(k: Sink) {
    k.minLevel == Finest && k.entry == Absent
  }

  /** A sink that accepts lets the event pass. */
  lemma PassSink(s: State, content: Content, j: nat) returns (k: Sink)
    requires j < |s.sinks| && s.pc == Dispatch(j, Looking) && s.local != [] && s.sinks[j].entry == Absent
    ensures k.entry == Absent && Leads(s, content, SetSink(s, j, k, Dispatch(j + 1, Looking)))
  {
    HandleEventRuns(s, content, j, true, true);
    k := HandleEvent(s.sinks[j], s.local[0], content, true, true);
  }

  /** A sink that refuses gets a retry thread. */
  lemma FailSink(s: State, content: Content, j: nat) returns (k: Sink)
    requires j < |s.sinks| && s.pc == Dispatch(j, Looking) && s.local != [] && Untouched(s.sinks[j])
    ensures Retrying(k, [s.local[0]]) && Leads(s, content, SetSink(s, j, k, Dispatch(j + 1, Looking)))
  {
    HandleEventRuns(s, content, j, false, true);
    k := HandleEvent(s.sinks[j], s.local[0], content, false, true);
  }

  /** The first `n` sinks refuse the current event, the others accept it. */
  lemma DispatchRest(s: State, content: Content, j: nat, n: nat) returns (s': State)
    requires j <= |s.sinks| && s.pc == Dispatch(j, Looking) && s.local != []
    requires forall k :: j <= k < |s.sinks| ==> s.sinks[k].entry == Absent && (k < n ==> Untouched(s.sinks[k]))
    ensures Leads(s, content, s') && s' == s.(sinks := s'.sinks, pc := Dispatch(|s.sinks|, Looking))
    ensures |s'.sinks| == |s.sinks| && forall k :: 0 <= k < j ==> s'.sinks[k] == s.sinks[k]
    ensures forall k :: j <= k < |s.sinks| ==>
              if k < n then Retrying(s'.sinks[k], [s.local[0]]) else s'.sinks[k].entry == Absent
    decreases |s.sinks| - j
  {
    if j == |s.sinks| {
      LeadsRefl(s, content);
      s' := s;
    } else {
      var k;
      if j < n { k := FailSink(s, content, j); } else { k := PassSink(s, content, j); }
      var s1 := SetSink(s, j, k, Dispatch(j + 1, Looking));
      s' := DispatchRest(s1, content, j + 1, n);
      LeadsTrans(s, content, s1, s');
    }
  }

  // ---------- the first event fails at some sinks ----------

  /** Before anything else, the filters of the failing sinks are opened. */
  lemma OpenFilters(levels: seq<Level>, guarded: bool, content: Content, n: nat) returns (s: State)
    requires n <= |levels|
    ensures Leads(Init(levels, guarded), content, s) && s == Init(levels, guarded).(sinks := s.sinks) && |s.sinks| == |levels|
    ensures forall k :: 0 <= k < |levels| ==> s.sinks[k].entry == Absent && (k < n ==> Untouched(s.sinks[k]))
  {
    if n == 0 {
      LeadsRefl(Init(levels, guarded), content);
      s := Init(levels, guarded);
    } else {
      var s0 := OpenFilters(levels, guarded, content, n - 1);
      Then(Init(levels, guarded), content, s0, SetMinLevel(n - 1, Finest));
      s := Step(s0, content, SetMinLevel(n - 1, Finest)).value;
    }
  }

  /** One event was refused by the first `n` sinks; the log thread has finished its batch. */
  lemma FirstFailure(levels: seq<Level>, guarded: bool, content: Content, n: nat) returns (s: State)
    requires n <= |levels|
    ensures Leads(Init(levels, guarded), content, s)
    ensures s == State(1, [], [], false, 1, Quitting, s.sinks, guarded) && |s.sinks| == |levels|
    ensures forall k :: 0 <= k < |levels| ==> if k < n then Retrying(s.sinks[k], [0]) else s.sinks[k].entry == Absent
  {
    var start := Init(levels, guarded);
    var s0 := OpenFilters(levels, guarded, content, n);
    Then(start, content, s0, Enqueue);
    var s1 := State(1, [0], [], false, 1, Swapping, s0.sinks, guarded);
    assert Step(s0, content, Enqueue).value == s1;
    Then(start, content, s1, GO);
    var s2 := State(1, [], [0], false, 1, Fetching, s0.sinks, guarded);
    Then(start, content, s2, GO);
    var s3 := s2.(pc := Dispatch(0, Looking));
    var s4 := DispatchRest(s3, content, 0, n);
    LeadsTrans(start, content, s3, s4);
    Then(start, content, s4, GO);
    var s5 := State(1, [], [], false, 1, Fetching, s4.sinks, guarded);
    assert Step(s4, content, GO).value == s5;
    Then(start, content, s5, GO);
    s := s5.(pc := Quitting);
  }

  // ---------- a retry thread empties its queue and exits ----------

  /** The sink whose only retry thread wrote `[t]` and exited. */
  function Drained(k: Sink, t: Ticket): Sink
    requires k.entry.At?
  {
    WithThread(Accept(k, t, true), k.entry.id, Retry([], Exited))
  }

  lemma RetryThen(s: State, content: Content, mid: State, j: nat, id: nat, k: Sink)
    requires Leads(s, content, mid) && j < |mid.sinks|
    requires StepRetry(mid.sinks[j], id, content, true, 0) == Some(k)
    ensures Leads(s, content, mid.(sinks := mid.sinks[j := k]))
  {
    Then(s, content, mid, RetryStep(j, id, true, 0));
  }

  lemma DrainFirstHalf(s: State, content: Content, j: nat, t: Ticket)
    requires j < |s.sinks| && Retrying(s.sinks[j], [t])
    ensures var k := s.sinks[j];
            Leads(s, content, s.(sinks := s.sinks[j := WithThread(Accept(k, t, true), k.entry.id, Retry([t], Popping(t)))]))
  {
    var k, id := s.sinks[j], s.sinks[j].entry.id;
    LeadsRefl(s, content);
    var k1 := WithThread(k, id, Retry([t], Peeking));
    RetryThen(s, content, s, j, id, k1);
    var k2 := WithThread(k1, id, Retry([t], Filtering(t)));
    RetryThen(s, content, s.(sinks := s.sinks[j := k1]), j, id, k2);
    assert s.sinks[j := k1][j := k2] == s.sinks[j := k2];
    var k3 := WithThread(k2, id, Retry([t], Sending(t)));
    RetryThen(s, content, s.(sinks := s.sinks[j := k2]), j, id, k3);
    assert s.sinks[j := k2][j := k3] == s.sinks[j := k3];
    var k4 := WithThread(Accept(k3, t, true), id, Retry([t], Popping(t)));
    RetryThen(s, content, s.(sinks := s.sinks[j := k3]), j, id, k4);
    assert s.sinks[j := k3][j := k4] == s.sinks[j := k4];
    assert k4 == WithThread(Accept(k, t, true), id, Retry([t], Popping(t)));
  }

  lemma DrainSecondHalf(s: State, content: Content, j: nat, id: nat, t: Ticket)
    requires j < |s.sinks| && id in s.sinks[j].threads && s.sinks[j].threads[id] == Retry([t], Popping(t))
    ensures Leads(s, content, s.(sinks := s.sinks[j := WithThread(s.sinks[j], id, Retry([], Exited))]))
  {
    var k := s.sinks[j];
    LeadsRefl(s, content);
    assert [t][1..] == [];
    var k1 := WithThread(k, id, Retry([], Peeking));
    RetryThen(s, content, s, j, id, k1);
    var k2 := WithThread(k1, id, Retry([], Expiring));
    RetryThen(s, content, s.(sinks := s.sinks[j := k1]), j, id, k2);
    assert s.sinks[j := k1][j := k2] == s.sinks[j := k2];
    var k3 := WithThread(k2, id, Retry([], Deciding));
    assert k2.expired + Stale([], content, 0) == k2.expired;
    RetryThen(s, content, s.(sinks := s.sinks[j := k2]), j, id, k3);
    assert s.sinks[j := k2][j := k3] == s.sinks[j := k3];
    var k4 := WithThread(k3, id, Retry([], Exited));
    RetryThen(s, content, s.(sinks := s.sinks[j := k3]), j, id, k4);
    assert s.sinks[j := k3][j := k4] == s.sinks[j := k4];
    assert k4 == WithThread(k, id, Retry([], Exited));
  }

  lemma Drain(s: State, content: Content, j: nat, t: Ticket)
    requires j < |s.sinks| && Retrying(s.sinks[j], [t])
    ensures Leads(s, content, s.(sinks := s.sinks[j := Drained(s.sinks[j], t)]))
  {
    var k, id := s.sinks[j], s.sinks[j].entry.id;
    DrainFirstHalf(s, content, j, t);
    var k1 := WithThread(Accept(k, t, true), id, Retry([t], Popping(t)));
    var mid := s.(sinks := s.sinks[j := k1]);
    DrainSecondHalf(mid, content, j, id, t);
    assert WithThread(k1, id, Retry([], Exited)) == Drained(k, t);
    assert mid.sinks[j := Drained(k, t)] == s.sinks[j := Drained(k, t)];
    LeadsTrans(s, content, mid, s.(sinks := s.sinks[j := Drained(k, t)]));
  }

  // ---------- hazard 1: an event left behind ----------

  /** A second event is about to be pushed to the retry thread of the first sink. */
  lemma AboutToPush(levels: seq<Level>, guarded: bool, content: Content) returns (s: State)
    requires levels != []
    ensures Leads(Init(levels, guarded), content, s)
    ensures |s.sinks| == |levels| && Retrying(s.sinks[0], [0])
    ensures s == State(2, [], [1], false, 2, Dispatch(0, Pushing(s.sinks[0].entry.id)), s.sinks, guarded)
  {
    var start := Init(levels, guarded);
    var s0 := FirstFailure(levels, guarded, content, 1);
    var k, id := s0.sinks[0], s0.sinks[0].entry.id;
    Then(start, content, s0, Enqueue);
    var s1 := State(2, [1], [], false, 2, Quitting, s0.sinks, guarded);
    assert Step(s0, content, Enqueue).value == s1;
    Then(start, content, s1, GO);
    var s2 := s1.(pc := Swapping);
    Then(start, content, s2, GO);
    var s3 := State(2, [], [1], false, 2, Fetching, s0.sinks, guarded);
    Then(start, content, s3, GO);
    var s4 := s3.(pc := Dispatch(0, Looking));
    Then(start, content, s4, GO);
    s := s4.(pc := Dispatch(0, Pushing(id)));
    assert Step(s4, content, GO).value == s by { assert s4.sinks[0 := k] == s4.sinks; }
  }

  /** With at least one sink a run exists in which an event is left behind for good. */
  lemma StrandingHappens(levels: seq<Level>, guarded: bool, content: Content) returns (s: State)
    requires levels != []
    ensures Reachable(levels, content, s) && s.guarded == guarded && SomeStranded(s)
  {
    var start := Init(levels, guarded);
    var s5 := AboutToPush(levels, guarded, content);
    var k, id := s5.sinks[0], s5.sinks[0].entry.id;
    Drain(s5, content, 0, 0);
    var s6 := s5.(sinks := s5.sinks[0 := Drained(k, 0)]);
    LeadsTrans(start, content, s5, s6);
    Then(start, content, s6, GO);
    s := Step(s6, content, GO).value;
    assert HasExited(s.sinks[0], id) && s.sinks[0].threads[id].queue == [] + [1];
    assert Stranded(s.sinks[0]);
  }

  /** The documented intent, that queued messages are delivered and normal delivery resumes, fails
      exactly when there is a sink at all, and the guard does not help: some run reaches a state from
      which no run returns. */
  lemma ShutdownCanBecomeImpossibleIffAnySink(levels: seq<Level>, guarded: bool, content: Content)
    ensures (exists s :: Reachable(levels, content, s) && s.guarded == guarded
                         && forall rest :: Exec(s, content, rest).Some? ==> !Returns(s, content, rest))
            <==> levels != []
  {
    if levels != [] {
      var s := StrandingHappens(levels, guarded, content);
      ReachableInv(levels, content, s);
      forall rest | Exec(s, content, rest).Some? ensures !Returns(s, content, rest) {
        StrandedForever(s, content, rest);
      }
    } else {
      forall s | Reachable(levels, content, s) && s.guarded == guarded
        ensures exists rest :: Exec(s, content, rest).Some? && Returns(s, content, rest)
      {
        NoSinksReturn(content, s);
      }
    }
  }

  ghost predicate Returns(s: State, content: Content, rest: seq<Action>)
    requires Exec(s, content, rest).Some?
  {
    Exec(s, content, rest).value.pc == Returned
  }

  lemma NoSinksReturn(content: Content, s: State)
    requires Reachable([], content, s)
    ensures exists rest :: Exec(s, content, rest).Some? && Returns(s, content, rest)
  {
    OneSinkNeverCrashes([], content, s);
    ReachableInv([], content, s);
    var schedule :| Exec(Init([], s.guarded), content, schedule) == Some(s);
    ExecShape(Init([], s.guarded), content, schedule);
    var s1 := Step(s, content, RequestStop).value;
    StepKeeps(s, content, RequestStop);
    LeadsStep(s, content, RequestStop);
    assert !Doomed(s1);
    var rest := FriendlyRun(s1, content);
    assert Leads(s1, content, Exec(s1, content, rest).value);
    LeadsTrans(s, content, s1, Exec(s1, content, rest).value);
    var all :| Exec(s, content, all) == Some(Exec(s1, content, rest).value);
    assert Returns(s, content, all);
  }

  // ---------- hazard 2: the scan dereferences a null entry ----------

  /** Two sinks were retrying; one has recovered, the other has not, and shutdown begins. */
  lemma HalfRecovered(levels: seq<Level>, content: Content, first: nat) returns (s: State)
    requires |levels| >= 2 && first < 2
    ensures Leads(Init(levels, false), content, s)
    ensures s == State(1, [], [], true, 2, Scanning({0, 1}, false), s.sinks, false) && |s.sinks| == |levels|
    ensures Retrying(s.sinks[1 - first], [0])
    ensures var k := s.sinks[first]; k.entry.At? && Idle(k, k.entry.id) && HasExited(k, k.entry.id)
  {
    var start := Init(levels, false);
    var s0 := FirstFailure(levels, false, content, 2);
    Drain(s0, content, first, 0);
    var s1 := s0.(sinks := s0.sinks[first := Drained(s0.sinks[first], 0)]);
    LeadsTrans(start, content, s0, s1);
    Then(start, content, s1, RequestStop);
    var s2 := s1.(terminate := true, unnotified := 2);
    Then(start, content, s2, GO);
    s := s2.(pc := Scanning({0, 1}, false));
    assert RetryKeys(s2) == {0, 1};
  }

  /** The scan nulls the entry of the recovered sink and, since the other is active, starts over. */
  lemma FirstScan(s: State, content: Content, first: nat) returns (s': State)
    requires first < 2 <= |s.sinks| && s.events == [] && s.local == [] && s.terminate
    requires s.pc == Scanning({0, 1}, false) && Retrying(s.sinks[1 - first], [0])
    requires var k := s.sinks[first]; k.entry.At? && Idle(k, k.entry.id) && HasExited(k, k.entry.id)
    ensures Leads(s, content, s') && s' == s.(pc := Swapping, sinks := s'.sinks)
    ensures |s'.sinks| == |s.sinks| && s'.sinks[first].entry == Null
  {
    var k, id, other := s.sinks[first], s.sinks[first].entry.id, 1 - first;
    assert {0, 1} - {first} == {other} && {other} - {other} == {};
    LeadsStep(s, content, LogStep(true, first));
    var s1 := s.(pc := ScanJoining(first, id, {other}, false));
    Then(s, content, s1, GO);
    var s2 := SetSink(s1, first, k.(entry := Null, threads := k.threads - {id}), Scanning({other}, false));
    Then(s, content, s2, LogStep(true, other));
    var s3 := s2.(pc := Scanning({}, true));
    Then(s, content, s3, GO);
    s' := s3.(pc := Swapping);
  }

  /** The next scan dereferences the null entry. */
  lemma SecondScan(s: State, content: Content, first: nat) returns (s': State)
    requires first < |s.sinks| && s.events == [] && s.local == [] && s.terminate
    requires s.pc == Swapping && s.sinks[first].entry == Null && !s.guarded
    ensures Leads(s, content, s') && s'.pc == Crashed && !s'.guarded
  {
    LeadsStep(s, content, GO);
    var s1 := s.(local := [], pc := Fetching);
    Then(s, content, s1, GO);
    var s2 := s1.(pc := Quitting);
    Then(s, content, s2, GO);
    var s3 := s2.(pc := Scanning(RetryKeys(s2), false));
    assert first in RetryKeys(s2);
    Then(s, content, s3, LogStep(true, first));
    s' := s3.(pc := Crashed);
  }

  /** With two sinks the log thread can run into a null entry, whichever of the two the map visits
      first. */
  lemma CrashHappens(levels: seq<Level>, content: Content, first: nat) returns (s: State)
    requires |levels| >= 2 && first < 2
    ensures Reachable(levels, content, s) && s.pc == Crashed && !s.guarded
  {
    var start := Init(levels, false);
    var s0 := HalfRecovered(levels, content, first);
    var s1 := FirstScan(s0, content, first);
    LeadsTrans(start, content, s0, s1);
    s := SecondScan(s1, content, first);
    LeadsTrans(start, content, s1, s);
  }

  /** The scan at shutdown can dereference a null entry exactly when it has no guard and there are
      two sinks or more. */
  lemma NullDereferenceIffTwoSinks(levels: seq<Level>, guarded: bool, content: Content)
    ensures (exists s :: Reachable(levels, content, s) && s.guarded == guarded && s.pc == Crashed)
            <==> |levels| >= 2 && !guarded
  {
    if |levels| >= 2 && !guarded {
      var s := CrashHappens(levels, content, 0);
    } else {
      forall s | Reachable(levels, content, s) && s.guarded == guarded ensures s.pc != Crashed {
        if guarded { GuardNeverCrashes(levels, content, s); } else { OneSinkNeverCrashes(levels, content, s); }
      }
    }
  }
}
