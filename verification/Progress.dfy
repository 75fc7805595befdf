/**
 When shutdown can still complete.

 `active()` and `enqueue()` take the retry mutex one after the other (log_thread.cpp:88-94), and
 the scan at shutdown dereferences entries an earlier scan may have nulled
 (log_thread.cpp:136-143).  Both can make it impossible for `do_run` to return.  `Doomed`
 describes the states in which that has happened; from every other state a run to `Returned`
 exists.
 */
module Progress {
  import opened Wrappers
  import opened LogEvents
  import opened Protocol
  import opened Invariant

  /** A retry thread has exited and left events behind. */
  ghost predicate Stranded(k: Sink) {
    exists id :: HasExited(k, id) && k.threads[id].queue != []
  }

  /** The log thread has decided to push to a retry thread that has meanwhile exited. */
  predicate PushTooLate(s: State) {
    && s.pc.Dispatch? && s.pc.sink < |s.sinks|
    && (s.pc.here.Pushing? || s.pc.here.FirstPush?)
    && HasExited(s.sinks[s.pc.sink], s.pc.here.id)
  }

  ghost predicate SomeNull(s: State) {
    exists k :: 0 <= k < |s.sinks| && s.sinks[k].entry == Null
  }

  /** The scan will look at an entry that is already null. */
  ghost predicate NullAhead(s: State, todo: set<nat>) {
    exists k :: k in todo && k < |s.sinks| && s.sinks[k].entry == Null
  }

  /** The scan will look at an idle retry thread, and null its entry. */
  ghost predicate IdleAhead(s: State, todo: set<nat>) {
    exists k :: k in todo && k < |s.sinks| && s.sinks[k].entry.At? && Idle(s.sinks[k], s.sinks[k].entry.id)
  }

  /** Without new events, a scan is bound to dereference a null entry. */
  ghost predicate NullTrap(s: State) {
    !s.guarded &&
    match s.pc
    case Scanning(todo, still) =>
      NullAhead(s, todo) || (still && s.events == [] && (SomeNull(s) || IdleAhead(s, todo)))
    case ScanJoining(_, _, todo, still) => NullAhead(s, todo) || (still && s.events == [])
    case Dispatch(_, _) => false
    case Confirming => false
    case Returned => false
    case _ => s.events == [] && s.local == [] && SomeNull(s)
  }

  ghost predicate Doomed(s: State) {
    || s.pc == Crashed
    || (exists k :: 0 <= k < |s.sinks| && Stranded(s.sinks[k]))
    || PushTooLate(s)
    || NullTrap(s)
  }

  // ---------- a doomed state stays doomed ----------

  lemma StrandedStays(k: Sink, here: Here, base: nat, content: Content, ok: bool)
    requires SinkInv(k, here, base) && Stranded(k) && StepDispatch(k, here, base, content, ok).Some?
    ensures Stranded(StepDispatch(k, here, base, content, ok).value.0)
  {
    var id :| HasExited(k, id) && k.threads[id].queue != [];
    var k' := StepDispatch(k, here, base, content, ok).value.0;
    assert HasExited(k', id) && k'.threads[id].queue != [];
  }

  lemma StrandedStaysRetry(k: Sink, here: Here, base: nat, id: nat, content: Content, ok: bool, now: Clock)
    requires SinkInv(k, here, base) && StepRetry(k, id, content, ok, now).Some?
    ensures Stranded(k) ==> Stranded(StepRetry(k, id, content, ok, now).value)
    ensures !k.threads[id].pc.Exited?
    ensures forall other :: other != id ==> !HasExited(k, other)
    ensures Idle(k, id) ==> Idle(StepRetry(k, id, content, ok, now).value, id)
  {
  }

  ghost predicate SomeStranded(s: State) {
    exists k :: 0 <= k < |s.sinks| && Stranded(s.sinks[k])
  }

  lemma LogKeepsStranded(s: State, content: Content, ok: bool, pick: nat, k: nat)
    requires Inv(s) && k < |s.sinks| && Stranded(s.sinks[k]) && StepLog(s, content, ok, pick).Some?
    ensures var s' := StepLog(s, content, ok, pick).value; |s'.sinks| == |s.sinks| && Stranded(s'.sinks[k])
  {
    var s' := StepLog(s, content, ok, pick).value;
    assert SinkInv(s.sinks[k], HereOf(s.pc, k), Handled(s, k));
    if s.pc.Dispatch? && s.pc.sink == k {
      assert s.local[0] == Handled(s, k);
      StrandedStays(s.sinks[k], s.pc.here, Handled(s, k), content, ok);
    } else if s.pc.ScanJoining? && s.pc.sink == k {
      assert false;
    } else {
      assert s'.sinks[k] == s.sinks[k];
    }
  }

  lemma RetryKeepsStranded(s: State, content: Content, j: nat, id: nat, ok: bool, now: Clock, k: nat)
    requires Inv(s) && k < |s.sinks| && Stranded(s.sinks[k])
    requires Step(s, content, RetryStep(j, id, ok, now)).Some?
    ensures var s' := Step(s, content, RetryStep(j, id, ok, now)).value;
            |s'.sinks| == |s.sinks| && Stranded(s'.sinks[k])
  {
    if j == k {
      assert SinkInv(s.sinks[k], HereOf(s.pc, k), Handled(s, k));
      StrandedStaysRetry(s.sinks[k], HereOf(s.pc, k), Handled(s, k), id, content, ok, now);
    }
  }

  lemma SameThreadsStranded(k: Sink, k': Sink)
    requires Stranded(k) && k'.threads == k.threads
    ensures Stranded(k')
  {
    var id :| HasExited(k, id) && k.threads[id].queue != [];
    assert HasExited(k', id);
  }

  lemma SomeStrandedStays(s: State, content: Content, a: Action)
    requires Inv(s) && SomeStranded(s) && Step(s, content, a).Some?
    ensures SomeStranded(Step(s, content, a).value)
  {
    var s' := Step(s, content, a).value;
    var k :| 0 <= k < |s.sinks| && Stranded(s.sinks[k]);
    match a {
      case RetryStep(j, id, ok, now) => RetryKeepsStranded(s, content, j, id, ok, now, k);
      case LogStep(ok, pick) => LogKeepsStranded(s, content, ok, pick, k);
      case SetMinLevel(j, level) => SameThreadsStranded(s.sinks[k], s'.sinks[k]);
      case _ =>
    }
    assert Stranded(s'.sinks[k]);
  }

  lemma PushTooLateStays(s: State, content: Content, a: Action)
    requires Inv(s) && PushTooLate(s) && Step(s, content, a).Some?
    ensures PushTooLate(Step(s, content, a).value) || SomeStranded(Step(s, content, a).value)
  {
    var s' := Step(s, content, a).value;
    var j, id := s.pc.sink, s.pc.here.id;
    match a
    case LogStep(ok, pick) =>
      assert HasExited(s'.sinks[j], id) && s'.sinks[j].threads[id].queue != [];
      assert Stranded(s'.sinks[j]);
    case RetryStep(i, other, ok, now) =>
      assert SinkInv(s.sinks[i], HereOf(s.pc, i), Handled(s, i));
      StrandedStaysRetry(s.sinks[i], HereOf(s.pc, i), Handled(s, i), other, content, ok, now);
      assert HasExited(s'.sinks[j], id);
    case _ =>
  }

  /** A retry thread changes neither map entries nor the idleness of an idle thread. */
  lemma RetryKeepsTrap(s: State, content: Content, j: nat, id: nat, ok: bool, now: Clock)
    requires Inv(s) && NullTrap(s) && Step(s, content, RetryStep(j, id, ok, now)).Some?
    ensures NullTrap(Step(s, content, RetryStep(j, id, ok, now)).value)
  {
    var s' := Step(s, content, RetryStep(j, id, ok, now)).value;
    SideKeepsTrap(s, j, s'.sinks[j]) by {
      assert SinkInv(s.sinks[j], HereOf(s.pc, j), Handled(s, j));
      StrandedStaysRetry(s.sinks[j], HereOf(s.pc, j), Handled(s, j), id, content, ok, now);
    }
  }

  lemma SideKeepsTrap(s: State, j: nat, k: Sink)
    requires NullTrap(s) && j < |s.sinks| && k.entry == s.sinks[j].entry
    requires k.entry.At? && Idle(s.sinks[j], k.entry.id) ==> Idle(k, k.entry.id)
    ensures NullTrap(s.(sinks := s.sinks[j := k]))
  {
    var s' := s.(sinks := s.sinks[j := k]);
    assert SomeNull(s) ==> SomeNull(s') by {
      if SomeNull(s) { var i :| 0 <= i < |s.sinks| && s.sinks[i].entry == Null; assert s'.sinks[i].entry == Null; }
    }
    forall todo: set<nat> ensures NullAhead(s, todo) ==> NullAhead(s', todo) {
      if NullAhead(s, todo) {
        var i :| i in todo && i < |s.sinks| && s.sinks[i].entry == Null;
        assert s'.sinks[i].entry == Null;
      }
    }
    forall todo: set<nat> ensures IdleAhead(s, todo) ==> IdleAhead(s', todo) {
      if IdleAhead(s, todo) {
        var i :| i in todo && i < |s.sinks| && s.sinks[i].entry.At? && Idle(s.sinks[i], s.sinks[i].entry.id);
        assert s'.sinks[i].entry.At? && Idle(s'.sinks[i], s'.sinks[i].entry.id);
      }
    }
  }

  /** A null ahead is dereferenced now or stays ahead. */
  lemma ScanTowardsNull(s: State, content: Content, ok: bool, pick: nat)
    requires !s.guarded && s.pc.Scanning? && NullAhead(s, s.pc.todo) && StepLog(s, content, ok, pick).Some?
    ensures var s' := StepLog(s, content, ok, pick).value; s'.pc == Crashed || NullTrap(s')
  {
    var s' := StepLog(s, content, ok, pick).value;
    var todo := s.pc.todo;
    var k :| k in todo && k < |s.sinks| && s.sinks[k].entry == Null;
    if s'.pc != Crashed {
      assert NullAhead(s', todo - {pick}) by { assert k in todo - {pick}; }
    }
  }

  /** An idle thread ahead is about to be joined or stays ahead. */
  lemma ScanTowardsIdle(s: State, content: Content, ok: bool, pick: nat)
    requires !s.guarded && s.pc.Scanning? && s.pc.still && s.events == [] && StepLog(s, content, ok, pick).Some?
    requires IdleAhead(s, s.pc.todo)
    ensures var s' := StepLog(s, content, ok, pick).value; s'.pc == Crashed || NullTrap(s')
  {
    var s' := StepLog(s, content, ok, pick).value;
    var todo := s.pc.todo;
    var k :| k in todo && k < |s.sinks| && s.sinks[k].entry.At? && Idle(s.sinks[k], s.sinks[k].entry.id);
    if s'.pc.Scanning? {
      assert IdleAhead(s', todo - {pick}) by { assert k in todo - {pick}; }
    }
  }

  /** A null behind the scan is there for the next one. */
  lemma ScanPastNull(s: State, content: Content, ok: bool, pick: nat)
    requires !s.guarded && s.pc.Scanning? && s.pc.still && s.events == [] && s.local == [] && SomeNull(s)
    requires StepLog(s, content, ok, pick).Some?
    ensures var s' := StepLog(s, content, ok, pick).value; s'.pc == Crashed || NullTrap(s')
  {
    var k :| 0 <= k < |s.sinks| && s.sinks[k].entry == Null;
    assert StepLog(s, content, ok, pick).value.sinks[k].entry == Null;
  }

  lemma ScanKeepsTrap(s: State, content: Content, ok: bool, pick: nat)
    requires Inv(s) && NullTrap(s) && s.pc.Scanning? && StepLog(s, content, ok, pick).Some?
    ensures Doomed(StepLog(s, content, ok, pick).value)
  {
    if NullAhead(s, s.pc.todo) {
      ScanTowardsNull(s, content, ok, pick);
    } else if IdleAhead(s, s.pc.todo) {
      ScanTowardsIdle(s, content, ok, pick);
    } else {
      ScanPastNull(s, content, ok, pick);
    }
  }

  lemma ScanJoinKeepsTrap(s: State, content: Content, ok: bool, pick: nat)
    requires Inv(s) && NullTrap(s) && s.pc.ScanJoining? && StepLog(s, content, ok, pick).Some?
    ensures Doomed(StepLog(s, content, ok, pick).value)
  {
    var s' := StepLog(s, content, ok, pick).value;
    var j, todo := s.pc.sink, s.pc.todo;
    assert s'.pc == Scanning(todo, s.pc.still) && s'.events == s.events;
    if NullAhead(s, todo) {
      var k :| k in todo && k < |s.sinks| && s.sinks[k].entry == Null;
      assert s'.sinks[k].entry == Null;
      assert NullAhead(s', todo);
    } else {
      assert s'.sinks[j].entry == Null;
      assert SomeNull(s');
    }
    assert NullTrap(s');
  }

  lemma LogKeepsTrap(s: State, content: Content, ok: bool, pick: nat)
    requires Inv(s) && NullTrap(s) && StepLog(s, content, ok, pick).Some?
    ensures Doomed(StepLog(s, content, ok, pick).value)
  {
    if s.pc.Scanning? {
      ScanKeepsTrap(s, content, ok, pick);
    } else if s.pc.ScanJoining? {
      ScanJoinKeepsTrap(s, content, ok, pick);
    } else {
      var s' := StepLog(s, content, ok, pick).value;
      var k :| 0 <= k < |s.sinks| && s.sinks[k].entry == Null;
      assert s'.sinks[k].entry == Null;
      if s.pc == Quitting && s.terminate { assert k in RetryKeys(s); }
    }
  }

  /** Nothing but a new event can undo a doom. */
  lemma DoomedStays(s: State, content: Content, a: Action)
    requires Inv(s) && Doomed(s) && !a.Enqueue? && Step(s, content, a).Some?
    ensures Doomed(Step(s, content, a).value)
  {
    if SomeStranded(s) {
      SomeStrandedStays(s, content, a);
    } else if PushTooLate(s) {
      PushTooLateStays(s, content, a);
    } else if NullTrap(s) {
      match a
      case LogStep(ok, pick) => LogKeepsTrap(s, content, ok, pick);
      case RetryStep(j, id, ok, now) => RetryKeepsTrap(s, content, j, id, ok, now);
      case SetMinLevel(j, level) => SideKeepsTrap(s, j, s.sinks[j].(minLevel := level));
      case _ =>
    }
  }

  lemma ReturnedIsNotDoomed(s: State)
    requires Inv(s) && s.pc == Returned
    ensures !Doomed(s)
  {
    forall k | 0 <= k < |s.sinks| ensures !Stranded(s.sinks[k]) {
      assert ThreadsOk(s.sinks[k], Away);
      assert s.sinks[k].threads.Keys == {};
    }
  }

  ghost predicate NoNewEvents(schedule: seq<Action>) {
    forall i :: 0 <= i < |schedule| ==> !schedule[i].Enqueue?
  }

  lemma {:induction false} DoomedNeverReturns(s: State, content: Content, schedule: seq<Action>)
    requires Inv(s) && Doomed(s) && NoNewEvents(schedule) && Exec(s, content, schedule).Some?
    ensures Exec(s, content, schedule).value.pc != Returned
    decreases |schedule|
  {
    if schedule == [] {
      if s.pc == Returned { ReturnedIsNotDoomed(s); }
    } else {
      var next := Step(s, content, schedule[0]).value;
      StepKeeps(s, content, schedule[0]);
      DoomedStays(s, content, schedule[0]);
      DoomedNeverReturns(next, content, schedule[1..]);
    }
  }

  /** Not even new events help an event that was left behind by an exited retry thread. */
  lemma {:induction false} StrandedForever(s: State, content: Content, schedule: seq<Action>)
    requires Inv(s) && SomeStranded(s) && Exec(s, content, schedule).Some?
    ensures SomeStranded(Exec(s, content, schedule).value) && Exec(s, content, schedule).value.pc != Returned
    decreases |schedule|
  {
    if schedule == [] {
      if s.pc == Returned { ReturnedIsNotDoomed(s); }
    } else {
      StepKeeps(s, content, schedule[0]);
      SomeStrandedStays(s, content, schedule[0]);
      StrandedForever(Step(s, content, schedule[0]).value, content, schedule[1..]);
    }
  }

  // ---------- from every other state a run to `Returned` exists ----------

  function RetryWork(r: Retry): nat {
    var n := |r.queue|;
    match r.pc
    case Asleep => 5 * n + 4
    case Peeking => 5 * n + 3
    case Filtering(_) => 5 * n + 2
    case Sending(_) => 5 * n + 1
    case Popping(_) => 5 * n
    case Expiring => if n == 0 then 2 else 5 * n + 6
    case Deciding => if n == 0 then 1 else 5 * n + 5
    case Exited => 0
  }

  function SinkWork(k: Sink): nat {
    if k.entry.At? && k.entry.id in k.threads then RetryWork(k.threads[k.entry.id]) else 0
  }

  function TotalWork(sinks: seq<Sink>): nat {
    if sinks == [] then 0 else SinkWork(sinks[0]) + TotalWork(sinks[1..])
  }

  /** Only one sink's work changes. */
  lemma {:induction false} WorkUpdate(sinks: seq<Sink>, j: nat, k: Sink)
    requires j < |sinks|
    ensures TotalWork(sinks[j := k]) == TotalWork(sinks) - SinkWork(sinks[j]) + SinkWork(k)
  {
    if j == 0 {
      assert sinks[j := k][1..] == sinks[1..];
    } else {
      WorkUpdate(sinks[1..], j - 1, k);
      assert sinks[j := k][1..] == sinks[1..][j - 1 := k];
    }
  }

  function HereRank(here: Here): nat {
    match here
    case Looking => 9
    case Joining(_) => 8
    case Pushing(_) => 7
    case Offering => 6
    case Delivering => 5
    case Spawning => 4
    case FirstPush(_) => 3
    case Emplacing(_) => 2
    case _ => 0
  }

  /** Steps to go in the current round of `do_run`. */
  function LogRank(s: State): int {
    var n := |s.sinks|;
    var quiet := s.events == [];
    match s.pc
    case Returned => 0
    case Crashed => 0
    case Confirming => 1
    case Dispatch(j, here) => 10 * (n - j) + HereRank(here)
    case Fetching => 10 * n + 10
    case Quitting => if quiet then 2 * n + 4 else 1
    case Swapping => if quiet then 10 * n + 11 else 0
    case Waiting(woken) => (if quiet then 10 * n + 12 else 1) + (if woken then 0 else 1)
    case Scanning(todo, still) => 2 + 2 * |todo| + (if quiet && still then 10 * n + 10 else 0)
    case ScanJoining(_, _, todo, still) => 3 + 2 * |todo| + (if quiet && still then 10 * n + 10 else 0)
  }

  function Backlog(s: State): nat {
    2 * |s.events| + |s.local|
  }

  /** The lexicographic measure: events to distribute, steps of the round, work of the retry threads. */
  predicate Closer(s': State, s: State) {
    || Backlog(s') < Backlog(s)
    || (Backlog(s') == Backlog(s) && LogRank(s') < LogRank(s))
    || (Backlog(s') == Backlog(s) && LogRank(s') == LogRank(s) && TotalWork(s'.sinks) < TotalWork(s.sinks))
  }

  lemma {:induction false} SubsetSize(s: set<nat>, n: nat)
    requires forall x :: x in s ==> x < n
    ensures |s| <= n
  {
    if n > 0 { SubsetSize(s - {n - 1}, n - 1); } else { assert s == {}; }
  }

  lemma KeysSize(s: State)
    ensures |RetryKeys(s)| <= |s.sinks|
  {
    SubsetSize(RetryKeys(s), |s.sinks|);
  }

  /** The log thread is in the middle of handing an event over, or finishing a scan that found an
      active thread: it must not be overtaken. */
  predicate Urgent(s: State) {
    || (s.pc.Dispatch? && (s.pc.here.Pushing? || s.pc.here.FirstPush? || s.pc.here.Emplacing?))
    || (s.pc.Scanning? && s.pc.still)
  }

  /** Every step of a retry thread whose sink accepts is progress. */
  lemma RetryWorksOff(k: Sink, id: nat, content: Content, now: Clock)
    requires k.entry == At(id) && id in k.threads && RetryOk(k.threads[id], k.accepted) && k.threads[id].pc != Exited
    ensures StepRetry(k, id, content, true, now).Some?
    ensures var k' := StepRetry(k, id, content, true, now).value;
            k'.entry == k.entry && SinkWork(k') < SinkWork(k)
  {
    KeptShorter(k.threads[id].queue, content, now);
  }

  lemma RetryGetsCloser(k: Sink, here: Here, base: nat, id: nat, content: Content)
    requires SinkInv(k, here, base) && k.entry == At(id) && id in k.threads && k.threads[id].pc != Exited
    ensures StepRetry(k, id, content, true, 0).Some?
    ensures var k' := StepRetry(k, id, content, true, 0).value;
            SinkWork(k') < SinkWork(k) && k'.entry == k.entry && !Stranded(k')
  {
    RetryWorksOff(k, id, content, 0);
    assert k.threads.Keys == {id};
  }

  /** What a retry thread changes dooms nothing unless the log thread is in a hurry. */
  lemma SideStepIsSafe(s: State, j: nat, k: Sink)
    requires !Doomed(s) && !Urgent(s) && j < |s.sinks| && k.entry == s.sinks[j].entry && !Stranded(k)
    ensures !Doomed(s.(sinks := s.sinks[j := k]))
  {
    var s' := s.(sinks := s.sinks[j := k]);
    assert forall i :: 0 <= i < |s.sinks| ==> s'.sinks[i].entry == s.sinks[i].entry;
    forall i | 0 <= i < |s'.sinks| ensures !Stranded(s'.sinks[i]) {
      assert i != j ==> !Stranded(s.sinks[i]);
    }
    assert SomeNull(s') ==> SomeNull(s);
    assert forall todo: set<nat> :: NullAhead(s', todo) ==> NullAhead(s, todo);
    assert !NullTrap(s');
  }

  /** Letting a retry thread run first is safe unless the log thread is in a hurry. */
  lemma RetryHelps(s: State, content: Content, j: nat, id: nat)
    requires Inv(s) && !Doomed(s) && !Urgent(s)
    requires j < |s.sinks| && s.sinks[j].entry == At(id) && id in s.sinks[j].threads
    requires s.sinks[j].threads[id].pc != Exited
    ensures var a := RetryStep(j, id, true, 0);
            Step(s, content, a).Some? && !Doomed(Step(s, content, a).value) && Closer(Step(s, content, a).value, s)
  {
    assert SinkInv(s.sinks[j], HereOf(s.pc, j), Handled(s, j));
    RetryGetsCloser(s.sinks[j], HereOf(s.pc, j), Handled(s, j), id, content);
    var k := StepRetry(s.sinks[j], id, content, true, 0).value;
    WorkUpdate(s.sinks, j, k);
    SideStepIsSafe(s, j, k);
  }

  /** No retry thread has anything left to run. */
  ghost predicate AllExited(s: State) {
    forall k, id :: 0 <= k < |s.sinks| && id in s.sinks[k].threads ==> s.sinks[k].threads[id].pc == Exited
  }

  /** The log thread may take the next step without harm. */
  ghost predicate LogMayRun(s: State) {
    Urgent(s) || AllExited(s)
  }

  lemma DispatchHelps(s: State, content: Content)
    requires Inv(s) && !Doomed(s) && LogMayRun(s) && s.pc.Dispatch? && s.pc.sink < |s.sinks|
    ensures StepLog(s, content, true, 0).Some?
    ensures var s' := StepLog(s, content, true, 0).value; !Doomed(s') && Closer(s', s)
  {
    DispatchAdvances(s, content);
    DispatchDoomsNothing(s, content);
  }

  lemma DispatchAdvances(s: State, content: Content)
    requires Inv(s) && !Doomed(s) && LogMayRun(s) && s.pc.Dispatch? && s.pc.sink < |s.sinks|
    ensures StepLog(s, content, true, 0).Some? && Closer(StepLog(s, content, true, 0).value, s)
  {
    var k, here := s.sinks[s.pc.sink], s.pc.here;
    assert SinkInv(k, here, Handled(s, s.pc.sink));
    DispatchSafe(k, here, Handled(s, s.pc.sink), s.local[0], content);
  }

  lemma DispatchDoomsNothing(s: State, content: Content)
    requires Inv(s) && !Doomed(s) && LogMayRun(s) && s.pc.Dispatch? && s.pc.sink < |s.sinks|
    requires StepLog(s, content, true, 0).Some?
    ensures !Doomed(StepLog(s, content, true, 0).value)
  {
    var j, here := s.pc.sink, s.pc.here;
    var k := s.sinks[j];
    assert SinkInv(k, here, Handled(s, j));
    DispatchSafe(k, here, Handled(s, j), s.local[0], content);
    var (k', next) := StepDispatch(k, here, s.local[0], content, true).value;
    var s' := StepLog(s, content, true, 0).value;
    assert s'.sinks[j] == k';
    assert forall i :: 0 <= i < |s.sinks| ==> !Stranded(s'.sinks[i]);
  }

  lemma DispatchSafe(k: Sink, here: Here, base: nat, t: Ticket, content: Content)
    requires SinkInv(k, here, base) && here != Away && here != Done && !Stranded(k)
    requires here.Joining? ==> HasExited(k, here.id)
    requires here.Pushing? || here.FirstPush? ==> !HasExited(k, here.id)
    requires here.Looking? ==> forall id :: id in k.threads ==> HasExited(k, id)
    ensures StepDispatch(k, here, t, content, true).Some?
    ensures var (k', next) := StepDispatch(k, here, t, content, true).value;
            && !Stranded(k')
            && (next.Pushing? || next.FirstPush? ==> !HasExited(k', next.id))
            && (next == Done || HereRank(next) < HereRank(here))
  {
    var (k', next) := StepDispatch(k, here, t, content, true).value;
    match here
    case Looking =>
      if k.entry.At? { assert HasExited(k, k.entry.id); }
    case Emplacing(id) => assert k'.threads == k.threads;
    case _ =>
  }

  lemma EndOfEventHelps(s: State, content: Content)
    requires Inv(s) && !Doomed(s) && s.pc.Dispatch? && s.pc.sink == |s.sinks|
    ensures StepLog(s, content, true, 0).Some?
    ensures var s' := StepLog(s, content, true, 0).value; !Doomed(s') && Closer(s', s)
  {
  }

  lemma ScanEndHelps(s: State, content: Content)
    requires Inv(s) && !Doomed(s) && s.pc.Scanning? && s.pc.todo == {}
    ensures StepLog(s, content, true, 0).Some?
    ensures var s' := StepLog(s, content, true, 0).value; !Doomed(s') && Closer(s', s)
  {
  }

  /** Visiting a key leads to a state that differs in the program counter only. */
  lemma ScanVisit(s: State, content: Content, pick: nat)
    requires Inv(s) && !SomeStranded(s) && LogMayRun(s) && s.pc.Scanning? && pick in s.pc.todo
    requires pick < |s.sinks| && s.sinks[pick].entry != Null
    ensures s.sinks[pick].entry.At?
    ensures var k := s.sinks[pick];
            StepLog(s, content, true, pick)
            == Some(s.(pc := if Idle(k, k.entry.id) then ScanJoining(pick, k.entry.id, s.pc.todo - {pick}, s.pc.still)
                             else Scanning(s.pc.todo - {pick}, true)))
            && (!Idle(k, k.entry.id) ==> s.pc.still)
  {
    var k := s.sinks[pick];
    assert ThreadsOk(k, Away);
    assert !Stranded(k);
  }

  /** Leaving one key of a safe scan behind is safe, provided no idle thread is nulled after an
      active one was seen. */
  lemma ScanGoesOn(s: State, pc: LogPc, pick: nat)
    requires !Doomed(s) && s.pc.Scanning? && pick in s.pc.todo
    requires (pc == Scanning(s.pc.todo - {pick}, true) && s.pc.still)
             || (pc.ScanJoining? && pc.todo == s.pc.todo - {pick} && pc.still == s.pc.still
                 && (s.pc.still && !s.guarded ==> s.events != []))
    ensures !Doomed(s.(pc := pc)) && Closer(s.(pc := pc), s)
  {
    var todo, s' := s.pc.todo, s.(pc := pc);
    assert |todo - {pick}| == |todo| - 1;
    assert !SomeStranded(s) && !SomeStranded(s');
    if !s.guarded {
      assert !NullAhead(s', todo - {pick}) by { assert !NullAhead(s, todo); }
      if s.pc.still && s.events == [] {
        assert !IdleAhead(s, todo) && !SomeNull(s);
        assert !IdleAhead(s', todo - {pick}) && !SomeNull(s');
      }
    }
  }

  /** With the guard a null entry is skipped. */
  lemma ScanSkipHelps(s: State, content: Content, pick: nat)
    requires !Doomed(s) && s.guarded && s.pc.Scanning? && pick in s.pc.todo
    requires pick < |s.sinks| && s.sinks[pick].entry == Null
    ensures StepLog(s, content, true, pick).Some?
    ensures var s' := StepLog(s, content, true, pick).value; !Doomed(s') && Closer(s', s)
  {
    var s' := StepLog(s, content, true, pick).value;
    assert |s.pc.todo - {pick}| == |s.pc.todo| - 1;
    assert !SomeStranded(s) && !SomeStranded(s');
  }

  lemma ScanPickHelps(s: State, content: Content, pick: nat)
    requires Inv(s) && !Doomed(s) && LogMayRun(s) && s.pc.Scanning? && pick in s.pc.todo
    ensures StepLog(s, content, true, pick).Some?
    ensures var s' := StepLog(s, content, true, pick).value; !Doomed(s') && Closer(s', s)
  {
    assert !SomeStranded(s);
    if s.sinks[pick].entry == Null {
      assert NullAhead(s, s.pc.todo);
      ScanSkipHelps(s, content, pick);
    } else {
      ScanVisit(s, content, pick);
      assert !s.guarded && s.pc.still && s.events == [] ==> !IdleAhead(s, s.pc.todo);
      ScanGoesOn(s, StepLog(s, content, true, pick).value.pc, pick);
    }
  }

  lemma ScanJoinHelps(s: State, content: Content)
    requires Inv(s) && !Doomed(s) && LogMayRun(s) && s.pc.ScanJoining?
    ensures StepLog(s, content, true, 0).Some?
    ensures var s' := StepLog(s, content, true, 0).value; !Doomed(s') && Closer(s', s)
  {
    var s' := StepLog(s, content, true, 0).value;
    var j, id := s.pc.sink, s.pc.id;
    assert ThreadsOk(s.sinks[j], Joining(id));
    assert s'.sinks[j].threads.Keys == {};
    assert forall i :: 0 <= i < |s.sinks| ==> !Stranded(s'.sinks[i]);
    assert !s.guarded ==> !NullAhead(s, s.pc.todo);
    assert !s.guarded ==> !NullAhead(s', s.pc.todo);
    assert !NullTrap(s');
  }

  /** The start of a scan is the expensive part of a round. */
  lemma QuittingHelps(s: State, content: Content)
    requires Inv(s) && !Doomed(s) && s.terminate && s.pc == Quitting
    ensures StepLog(s, content, true, 0).Some?
    ensures var s' := StepLog(s, content, true, 0).value; !Doomed(s') && Closer(s', s)
  {
    KeysSize(s);
    assert s.local == [];
    assert !s.guarded && s.events == [] ==> !SomeNull(s);
  }

  lemma RoundHelps(s: State, content: Content)
    requires Inv(s) && !Doomed(s)
    requires s.pc == Swapping || s.pc == Fetching || s.pc == Confirming || s.pc == Waiting(true)
    ensures StepLog(s, content, true, 0).Some?
    ensures var s' := StepLog(s, content, true, 0).value; !Doomed(s') && Closer(s', s)
  {
  }

  /** A notification is on its way to a log thread that still has to shut down. */
  lemma NotifyHelps(s: State, content: Content)
    requires Inv(s) && !Doomed(s) && s.terminate && s.pc == Waiting(false)
    ensures Step(s, content, Notify).Some?
    ensures !Doomed(Step(s, content, Notify).value) && Closer(Step(s, content, Notify).value, s)
  {
  }

  lemma LogHelps(s: State, content: Content) returns (pick: nat)
    requires Inv(s) && !Doomed(s) && LogMayRun(s) && s.terminate && s.pc != Returned && s.pc != Waiting(false)
    ensures StepLog(s, content, true, pick).Some?
    ensures var s' := StepLog(s, content, true, pick).value; !Doomed(s') && Closer(s', s)
  {
    pick := 0;
    match s.pc
    case Dispatch(j, _) =>
      if j == |s.sinks| { EndOfEventHelps(s, content); } else { DispatchHelps(s, content); }
    case Scanning(_, _) =>
      if s.pc.todo == {} {
        ScanEndHelps(s, content);
      } else {
        pick :| pick in s.pc.todo;
        ScanPickHelps(s, content, pick);
      }
    case ScanJoining(_, _, _, _) => ScanJoinHelps(s, content);
    case Quitting => QuittingHelps(s, content);
    case _ => RoundHelps(s, content);
  }

  lemma RunningThread(s: State) returns (j: nat, id: nat)
    requires Inv(s) && !LogMayRun(s)
    ensures j < |s.sinks| && s.sinks[j].entry == At(id)
    ensures id in s.sinks[j].threads && s.sinks[j].threads[id].pc != Exited
  {
    j, id :| 0 <= j < |s.sinks| && id in s.sinks[j].threads && s.sinks[j].threads[id].pc != Exited;
    assert ThreadsOk(s.sinks[j], HereOf(s.pc, j));
  }

  lemma LogKeepsTerminate(s: State, content: Content, ok: bool, pick: nat)
    requires StepLog(s, content, ok, pick).Some?
    ensures StepLog(s, content, ok, pick).value.terminate == s.terminate
  {
  }

  /** From a state that is not doomed some thread can bring shutdown closer without dooming it. */
  lemma HelpfulStep(s: State, content: Content) returns (a: Action)
    requires Inv(s) && !Doomed(s) && s.terminate && s.pc != Returned
    ensures Accepting(a) && Step(s, content, a).Some?
    ensures !Doomed(Step(s, content, a).value) && Closer(Step(s, content, a).value, s)
    ensures Step(s, content, a).value.terminate
  {
    if !LogMayRun(s) {
      var j, id := RunningThread(s);
      RetryHelps(s, content, j, id);
      a := RetryStep(j, id, true, 0);
    } else if s.pc == Waiting(false) {
      NotifyHelps(s, content);
      a := Notify;
    } else {
      var pick := LogHelps(s, content);
      LogKeepsTerminate(s, content, true, pick);
      a := LogStep(true, pick);
    }
  }

  /** The sinks accept, threads can be created, and nobody enqueues. */
  predicate Accepting(a: Action) {
    match a
    case LogStep(ok, _) => ok
    case RetryStep(_, _, ok, _) => ok
    case Notify => true
    case _ => false
  }

  ghost predicate AllAccepting(schedule: seq<Action>) {
    forall i :: 0 <= i < |schedule| ==> Accepting(schedule[i])
  }

  lemma FriendlyRun(s: State, content: Content) returns (schedule: seq<Action>)
    requires Inv(s) && !Doomed(s) && s.terminate
    ensures AllAccepting(schedule)
    ensures Exec(s, content, schedule).Some? && Exec(s, content, schedule).value.pc == Returned
    decreases Backlog(s), LogRank(s), TotalWork(s.sinks)
  {
    if s.pc == Returned {
      schedule := [];
    } else {
      var a := HelpfulStep(s, content);
      var next := Step(s, content, a).value;
      StepKeeps(s, content, a);
      RankIsNat(s);
      var rest := FriendlyRun(next, content);
      schedule := [a] + rest;
      assert schedule[1..] == rest;
    }
  }

  lemma RankIsNat(s: State)
    requires Inv(s)
    ensures LogRank(s) >= 0
  {
  }

  // ---------- the theorem ----------

  /** Some run without new events lets `do_run` return. */
  ghost predicate CanReturn(s: State, content: Content) {
    exists schedule :: NoNewEvents(schedule) && Exec(s, content, schedule).Some?
                       && Exec(s, content, schedule).value.pc == Returned
  }

  /** The same with every sink accepting. */
  ghost predicate CanReturnAccepting(s: State, content: Content) {
    exists schedule :: AllAccepting(schedule) && Exec(s, content, schedule).Some?
                       && Exec(s, content, schedule).value.pc == Returned
  }

  /** Exactly when shutdown can complete once termination is requested: in every reachable state
      that is not doomed, and in no other, whether or not the sinks accept. */
  lemma ShutdownCompletesIffNotDoomed(levels: seq<Level>, content: Content, s: State)
    requires Reachable(levels, content, s) && s.terminate
    ensures CanReturn(s, content) <==> !Doomed(s)
    ensures CanReturnAccepting(s, content) <==> !Doomed(s)
  {
    ReachableInv(levels, content, s);
    if Doomed(s) {
      forall schedule | NoNewEvents(schedule) && Exec(s, content, schedule).Some?
        ensures Exec(s, content, schedule).value.pc != Returned
      {
        DoomedNeverReturns(s, content, schedule);
      }
      assert forall schedule :: AllAccepting(schedule) ==> NoNewEvents(schedule);
    } else {
      var schedule := FriendlyRun(s, content);
      assert NoNewEvents(schedule);
    }
  }
}
