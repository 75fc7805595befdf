/** The two ways `do_run` can be kept from returning: when they arise, and when they cannot. */
module Hazards {
  import opened Wrappers
  import opened LogEvents
  import opened Protocol
  import opened Invariant
  import opened Progress

  // ---------- stranded events: exactly one race ----------

  /** Retry thread `id` exits between the log thread's decision to push to it and the push. */
  predicate RacingExit(s: State, a: Action) {
    && a.RetryStep? && a.sink < |s.sinks|
    && a.id in s.sinks[a.sink].threads && s.sinks[a.sink].threads[a.id] == Retry([], Deciding)
    && (s.pc == Dispatch(a.sink, Pushing(a.id)) || s.pc == Dispatch(a.sink, FirstPush(a.id)))
  }

  ghost predicate LeftBehind(s: State) {
    SomeStranded(s) || PushTooLate(s)
  }

  /** A retry thread never exits with events in its queue. */
  lemma RetryStrandsNothing(s: State, content: Content, j: nat, id: nat, ok: bool, now: Clock)
    requires Inv(s) && !SomeStranded(s) && Step(s, content, RetryStep(j, id, ok, now)).Some?
    ensures !SomeStranded(Step(s, content, RetryStep(j, id, ok, now)).value)
  {
    var s' := Step(s, content, RetryStep(j, id, ok, now)).value;
    assert ThreadsOk(s.sinks[j], HereOf(s.pc, j));
    forall k | 0 <= k < |s'.sinks| ensures !Stranded(s'.sinks[k]) {
      assert !Stranded(s.sinks[k]);
    }
  }

  /** It exits too late for a push exactly in the race. */
  lemma RetryPushTooLate(s: State, content: Content, a: Action)
    requires Inv(s) && !PushTooLate(s) && a.RetryStep? && Step(s, content, a).Some?
    ensures PushTooLate(Step(s, content, a).value) <==> RacingExit(s, a)
  {
    assert ThreadsOk(s.sinks[a.sink], HereOf(s.pc, a.sink));
  }

  lemma RetryStepBlame(s: State, content: Content, a: Action)
    requires Inv(s) && !LeftBehind(s) && a.RetryStep? && Step(s, content, a).Some?
    ensures LeftBehind(Step(s, content, a).value) <==> RacingExit(s, a)
  {
    RetryPushTooLate(s, content, a);
    RetryStrandsNothing(s, content, a.sink, a.id, a.ok, a.now);
  }

  lemma DispatchBlame(k: Sink, here: Here, base: nat, content: Content, ok: bool)
    requires SinkInv(k, here, base) && !Stranded(k) && StepDispatch(k, here, base, content, ok).Some?
    requires here.Pushing? || here.FirstPush? ==> !HasExited(k, here.id)
    ensures var (k', next) := StepDispatch(k, here, base, content, ok).value;
            !Stranded(k') && (next.FirstPush? || next.Pushing? ==> !HasExited(k', next.id))
  {
    var (k', next) := StepDispatch(k, here, base, content, ok).value;
    match here
    case Emplacing(id) => assert k'.threads == k.threads;
    case _ =>
  }

  lemma DispatchStepBlame(s: State, content: Content, ok: bool, pick: nat)
    requires Inv(s) && !LeftBehind(s) && s.pc.Dispatch? && StepLog(s, content, ok, pick).Some?
    ensures !LeftBehind(StepLog(s, content, ok, pick).value)
  {
    var s' := StepLog(s, content, ok, pick).value;
    assert forall k :: 0 <= k < |s.sinks| ==> !Stranded(s.sinks[k]);
    if s.pc.sink < |s.sinks| {
      var j := s.pc.sink;
      assert SinkInv(s.sinks[j], s.pc.here, Handled(s, j));
      assert s.local[0] == Handled(s, j);
      DispatchBlame(s.sinks[j], s.pc.here, Handled(s, j), content, ok);
      assert forall k :: 0 <= k < |s.sinks| ==> !Stranded(s'.sinks[k]);
    }
  }

  lemma JoinStepBlame(s: State, content: Content, ok: bool, pick: nat)
    requires Inv(s) && !LeftBehind(s) && s.pc.ScanJoining? && StepLog(s, content, ok, pick).Some?
    ensures !LeftBehind(StepLog(s, content, ok, pick).value)
  {
    var s' := StepLog(s, content, ok, pick).value;
    assert forall k :: 0 <= k < |s.sinks| ==> !Stranded(s.sinks[k]);
    assert ThreadsOk(s.sinks[s.pc.sink], Joining(s.pc.id));
    assert s'.sinks[s.pc.sink].threads.Keys == {};
  }

  lemma LogStepBlame(s: State, content: Content, ok: bool, pick: nat)
    requires Inv(s) && !LeftBehind(s) && StepLog(s, content, ok, pick).Some?
    ensures !LeftBehind(StepLog(s, content, ok, pick).value)
  {
    var s' := StepLog(s, content, ok, pick).value;
    if s.pc.Dispatch? {
      DispatchStepBlame(s, content, ok, pick);
    } else if s.pc.ScanJoining? {
      JoinStepBlame(s, content, ok, pick);
    } else {
      assert s'.sinks == s.sinks;
    }
  }

  /** An event is left behind by exactly one kind of step: a retry thread deciding to exit between
      `active()` and `enqueue()`, or between its creation and its first `enqueue()`. */
  lemma LeftBehindIffRacingExit(s: State, content: Content, a: Action)
    requires Inv(s) && !LeftBehind(s) && Step(s, content, a).Some?
    ensures LeftBehind(Step(s, content, a).value) <==> RacingExit(s, a)
  {
    var s' := Step(s, content, a).value;
    match a
    case RetryStep(_, _, _, _) => RetryStepBlame(s, content, a);
    case LogStep(ok, pick) => LogStepBlame(s, content, ok, pick);
    case SetMinLevel(j, level) =>
      assert forall k :: 0 <= k < |s.sinks| ==> s'.sinks[k].threads == s.sinks[k].threads;
      assert forall k :: 0 <= k < |s.sinks| ==> !Stranded(s.sinks[k]) && !Stranded(s'.sinks[k]);
    case _ => assert s'.sinks == s.sinks;
  }

  /** No step of the schedule is a racing exit. */
  ghost predicate RaceFree(s: State, content: Content, schedule: seq<Action>)
    decreases |schedule|
  {
    schedule != [] && Step(s, content, schedule[0]).Some? ==>
      !RacingExit(s, schedule[0]) && RaceFree(Step(s, content, schedule[0]).value, content, schedule[1..])
  }

  /** In race-free runs a finished retry thread always has an empty queue. */
  lemma {:induction false} RaceFreeLeavesNothingBehind(s: State, content: Content, schedule: seq<Action>)
    requires Inv(s) && !LeftBehind(s) && RaceFree(s, content, schedule) && Exec(s, content, schedule).Some?
    ensures !LeftBehind(Exec(s, content, schedule).value)
    decreases |schedule|
  {
    if schedule != [] {
      StepKeeps(s, content, schedule[0]);
      LeftBehindIffRacingExit(s, content, schedule[0]);
      RaceFreeLeavesNothingBehind(Step(s, content, schedule[0]).value, content, schedule[1..]);
    }
  }

  // ---------- the null dereference: never with one sink ----------

  /** With one sink a null entry is gone before the next scan. */
  predicate NullIsHandled(s: State) {
    |s.sinks| == 1 ==>
      match s.pc
      case Scanning(todo, still) => (todo != {} ==> !still) && (s.sinks[0].entry == Null ==> todo == {} && !still)
      case ScanJoining(_, _, todo, still) => todo == {} && !still && s.sinks[0].entry != Null
      case Confirming => true
      case Returned => true
      case Swapping => s.sinks[0].entry == Null ==> s.events != []
      case Fetching => s.sinks[0].entry == Null ==> s.local != []
      case Dispatch(j, here) => s.sinks[0].entry == Null ==> j == 0 && here == Looking
      case _ => s.sinks[0].entry != Null
  }

  lemma DispatchHandlesNull(k: Sink, here: Here, t: Ticket, content: Content, ok: bool)
    requires here == Looking || k.entry != Null
    requires StepDispatch(k, here, t, content, ok).Some?
    ensures StepDispatch(k, here, t, content, ok).value.0.entry != Null
  {
  }

  lemma OneSinkLogStep(s: State, content: Content, ok: bool, pick: nat)
    requires Inv(s) && |s.sinks| <= 1 && NullIsHandled(s) && StepLog(s, content, ok, pick).Some?
    ensures var s' := StepLog(s, content, ok, pick).value; s'.pc != Crashed && NullIsHandled(s')
  {
    match s.pc
    case Dispatch(j, here) =>
      if j < |s.sinks| { DispatchHandlesNull(s.sinks[j], here, s.local[0], content, ok); }
    case Scanning(todo, still) =>
      assert pick in todo ==> todo == {pick} by { if pick in todo { assert forall k :: k in todo ==> k == 0; } }
      assert todo == {pick} ==> todo - {pick} == {};
    case _ =>
  }

  lemma RetryKeepsEntry(k: Sink, id: nat, content: Content, ok: bool, now: Clock)
    requires StepRetry(k, id, content, ok, now).Some?
    ensures StepRetry(k, id, content, ok, now).value.entry == k.entry
  {
  }

  lemma OneSinkSideStep(s: State, content: Content, a: Action)
    requires QueuesOk(s) && |s.sinks| <= 1 && s.pc != Crashed && NullIsHandled(s) && !a.LogStep? && Step(s, content, a).Some?
    ensures var s' := Step(s, content, a).value; |s'.sinks| == |s.sinks| && s'.pc != Crashed && NullIsHandled(s')
  {
    if a.RetryStep? { RetryKeepsEntry(s.sinks[a.sink], a.id, content, a.ok, a.now); }
  }

  lemma OneSinkStep(s: State, content: Content, a: Action)
    requires Inv(s) && |s.sinks| <= 1 && s.pc != Crashed && NullIsHandled(s) && Step(s, content, a).Some?
    ensures var s' := Step(s, content, a).value; |s'.sinks| == |s.sinks| && s'.pc != Crashed && NullIsHandled(s')
  {
    if a.LogStep? { OneSinkLogStep(s, content, a.ok, a.pick); }
    if !a.LogStep? { OneSinkSideStep(s, content, a); }
  }

  lemma {:induction false} OneSinkExec(s: State, content: Content, schedule: seq<Action>)
    requires Inv(s) && |s.sinks| <= 1 && s.pc != Crashed && NullIsHandled(s) && Exec(s, content, schedule).Some?
    ensures var end := Exec(s, content, schedule).value; end.pc != Crashed && |end.sinks| <= 1 && NullIsHandled(end)
    decreases |schedule|
  {
    if schedule != [] {
      StepKeeps(s, content, schedule[0]);
      OneSinkStep(s, content, schedule[0]);
      OneSinkExec(Step(s, content, schedule[0]).value, content, schedule[1..]);
    }
  }

  lemma OneSinkNeverCrashes(levels: seq<Level>, content: Content, s: State)
    requires |levels| <= 1 && Reachable(levels, content, s)
    ensures s.pc != Crashed
  {
    InitInv(levels, s.guarded);
    var schedule :| Exec(Init(levels, s.guarded), content, schedule) == Some(s);
    OneSinkExec(Init(levels, s.guarded), content, schedule);
  }

  // ---------- with the guard ----------

  lemma {:induction false} GuardedExec(s: State, content: Content, schedule: seq<Action>)
    requires s.guarded && s.pc != Crashed && Exec(s, content, schedule).Some?
    ensures Exec(s, content, schedule).value.pc != Crashed
    decreases |schedule|
  {
    if schedule != [] { GuardedExec(Step(s, content, schedule[0]).value, content, schedule[1..]); }
  }

  lemma GuardNeverCrashes(levels: seq<Level>, content: Content, s: State)
    requires s.guarded && Reachable(levels, content, s)
    ensures s.pc != Crashed
  {
    var schedule :| Exec(Init(levels, true), content, schedule) == Some(s);
    GuardedExec(Init(levels, true), content, schedule);
  }
}
