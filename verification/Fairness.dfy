/**
 Shutdown completes on every fair run.

 A round is a piece of a run in which every thread that can move gets a turn.  After a stop request,
 when nobody enqueues, the writes of the retry threads succeed and no retry thread wins the race
 between `active()` and `enqueue()`, a number of rounds known in advance brings `do_run` to its end,
 whatever else the scheduler does.
 */
module Fairness {
  import opened Wrappers
  import opened LogEvents
  import opened Protocol
  import opened Invariant
  import opened Progress
  import opened Hazards

  // ---------- fair rounds ----------

  datatype Thread = Logger | Notifier | Retrier(sink: nat, id: nat)

  predicate ActsFor(a: Action, t: Thread) {
    match t
    case Logger => a.LogStep?
    case Notifier => a.Notify?
    case Retrier(j, id) => a.RetryStep? && a.sink == j && a.id == id
  }

  ghost predicate Enabled(s: State, content: Content, t: Thread) {
    match t
    case Logger => exists ok, pick :: StepLog(s, content, ok, pick).Some?
    case Notifier => s.unnotified > 0
    case Retrier(j, id) => exists ok, now :: Step(s, content, RetryStep(j, id, ok, now)).Some?
  }

  /** The thread gets a step in the round, or cannot move at some point of it. */
  ghost predicate Served(s: State, content: Content, round: seq<Action>, t: Thread)
    requires Exec(s, content, round).Some?
    decreases |round|
  {
    || !Enabled(s, content, t)
    || (round != [] && (ActsFor(round[0], t) || Served(Step(s, content, round[0]).value, content, round[1..], t)))
  }

  /** Nobody enqueues, and the writes of the retry threads succeed; direct writes may fail. */
  predicate Cooperative(a: Action) {
    !a.Enqueue? && (a.RetryStep? ==> a.ok)
  }

  ghost predicate AllCooperative(schedule: seq<Action>) {
    forall i :: 0 <= i < |schedule| ==> Cooperative(schedule[i])
  }

  ghost predicate FairRound(s: State, content: Content, round: seq<Action>) {
    && Exec(s, content, round).Some? && AllCooperative(round) && RaceFree(s, content, round)
    && forall t :: Served(s, content, round, t)
  }

  ghost predicate FairRun(s: State, content: Content, rounds: seq<seq<Action>>)
    decreases |rounds|
  {
    rounds != [] ==>
      FairRound(s, content, rounds[0]) && FairRun(Exec(s, content, rounds[0]).value, content, rounds[1..])
  }

  ghost function EndOf(s: State, content: Content, rounds: seq<seq<Action>>): State
    requires FairRun(s, content, rounds)
    decreases |rounds|
  {
    if rounds == [] then s else EndOf(Exec(s, content, rounds[0]).value, content, rounds[1..])
  }

  // ---------- how many rounds it takes ----------

  predicate Over(s: State) {
    s.pc == Returned || s.pc == Crashed
  }

  /** More than any `LogRank` with `n` sinks. */
  function RankBound(n: nat): nat {
    12 * n + 15
  }

  /** While there are events to hand over, each step of the log thread may add some work of retry
      threads; afterwards the retry threads finish their work, and then the log thread its round. */
  function Needed(n: nat, backlog: nat, rank: int, work: nat, exited: bool): int {
    if backlog > 0 then 12 * (Times(RankBound(n), backlog) + rank) + work + RankBound(n)
    else if exited then rank
    else RankBound(n) + work
  }

  ghost function RoundsNeeded(s: State): int {
    if Over(s) then 0 else Needed(|s.sinks|, Backlog(s), LogRank(s), TotalWork(s.sinks), AllExited(s))
  }

  /** `n * k` */
  function Times(n: nat, k: nat): nat {
    if k == 0 then 0 else n + Times(n, k - 1)
  }

  lemma {:induction false} TimesLess(n: nat, k: nat, k': nat)
    requires k' < k
    ensures Times(n, k') + n <= Times(n, k)
    decreases k
  {
    if k' < k - 1 { TimesLess(n, k - 1, k'); }
  }

  /** Handing over saves rounds even though it may add work. */
  lemma HandingOver(n: nat, b: nat, r: int, w: nat, e: bool, b': nat, r': int, w': nat, e': bool)
    requires b > 0 && w' <= w + 11 && 0 <= r && 0 <= r' < RankBound(n)
    requires b' < b || (b' == b && r' < r)
    ensures Needed(n, b', r', w', e') < Needed(n, b, r, w, e)
  {
    if b' < b { TimesLess(RankBound(n), b, b'); }
  }

  lemma NeededPositive(n: nat, b: nat, r: int, w: nat, e: bool)
    requires 0 <= r && (b == 0 && e ==> r > 0)
    ensures Needed(n, b, r, w, e) > 0
  {
  }

  /** Working off. */
  lemma WorkingOff(n: nat, b: nat, r: int, w: nat, e: bool, w': nat, e': bool)
    requires 0 <= r < RankBound(n) && !e && w' <= w && (b == 0 ==> w' < w)
    ensures Needed(n, b, r, w', e') <= Needed(n, b, r, w, e)
    ensures w' < w ==> Needed(n, b, r, w', e') < Needed(n, b, r, w, e)
  {
  }

  ghost predicate Closing(s: State) {
    Inv(s) && s.terminate && !LeftBehind(s)
  }

  lemma RankRange(s: State)
    requires Inv(s)
    ensures 0 <= LogRank(s) < RankBound(|s.sinks|)
  {
    match s.pc
    case Scanning(todo, _) => SubsetSize(todo, |s.sinks|);
    case ScanJoining(j, _, todo, _) =>
      SubsetSize(todo + {j}, |s.sinks|);
      assert |todo + {j}| == |todo| + 1;
    case _ =>
  }

  // ---------- a step of the log thread ----------

  /** A step at one sink comes closer to the next sink. */
  lemma DispatchAdvances(s: State, content: Content, ok: bool, pick: nat)
    requires s.pc.Dispatch? && StepLog(s, content, ok, pick).Some?
    ensures var s' := StepLog(s, content, ok, pick).value;
            Backlog(s') < Backlog(s) || (Backlog(s') == Backlog(s) && LogRank(s') < LogRank(s))
  {
  }

  lemma ScanAdvances(s: State, content: Content, ok: bool, pick: nat)
    requires s.pc.Scanning? && s.events != [] && StepLog(s, content, ok, pick).Some?
    ensures var s' := StepLog(s, content, ok, pick).value;
            s'.pc == Crashed || (Backlog(s') == Backlog(s) && LogRank(s') < LogRank(s))
  {
    if s.pc.todo != {} { assert |s.pc.todo - {pick}| == |s.pc.todo| - 1; }
  }

  /** With events to hand over every step of the log thread is progress. */
  lemma LogAdvances(s: State, content: Content, ok: bool, pick: nat)
    requires QueuesOk(s) && Backlog(s) > 0 && StepLog(s, content, ok, pick).Some?
    ensures var s' := StepLog(s, content, ok, pick).value;
            s'.pc == Crashed || Backlog(s') < Backlog(s)
            || (Backlog(s') == Backlog(s) && LogRank(s') < LogRank(s))
  {
    if s.pc.Dispatch? {
      DispatchAdvances(s, content, ok, pick);
    } else if s.pc.Scanning? {
      ScanAdvances(s, content, ok, pick);
    }
  }

  lemma PushWork(k: Sink, id: nat, t: Ticket)
    requires k.entry == At(id) && id in k.threads
    ensures SinkWork(Push(k, id, t)) <= SinkWork(k) + 11
  {
  }

  lemma DispatchWork(k: Sink, here: Here, base: nat, content: Content, ok: bool)
    requires SinkInv(k, here, base) && here != Away && here != Done
    requires StepDispatch(k, here, base, content, ok).Some?
    ensures SinkWork(StepDispatch(k, here, base, content, ok).value.0) <= SinkWork(k) + 11
  {
    match here
    case Pushing(id) => PushWork(k, id, base);
    case _ =>
  }

  lemma DispatchStepWork(s: State, content: Content, ok: bool, pick: nat)
    requires Inv(s) && s.pc.Dispatch? && s.pc.sink < |s.sinks| && StepLog(s, content, ok, pick).Some?
    ensures TotalWork(StepLog(s, content, ok, pick).value.sinks) <= TotalWork(s.sinks) + 11
  {
    var j := s.pc.sink;
    assert s.local[0] == Handled(s, j);
    DispatchWork(s.sinks[j], s.pc.here, Handled(s, j), content, ok);
    WorkUpdate(s.sinks, j, StepDispatch(s.sinks[j], s.pc.here, s.local[0], content, ok).value.0);
  }

  lemma JoinStepWork(s: State, content: Content, ok: bool, pick: nat)
    requires s.pc.ScanJoining? && s.pc.sink < |s.sinks| && StepLog(s, content, ok, pick).Some?
    ensures TotalWork(StepLog(s, content, ok, pick).value.sinks) <= TotalWork(s.sinks)
  {
    var k := s.sinks[s.pc.sink];
    WorkUpdate(s.sinks, s.pc.sink, k.(entry := Null, threads := k.threads - {s.pc.id}));
  }

  /** A step of the log thread adds little work, and none once all events are handed over. */
  lemma LogWork(s: State, content: Content, ok: bool, pick: nat)
    requires Inv(s) && StepLog(s, content, ok, pick).Some?
    ensures var s' := StepLog(s, content, ok, pick).value;
            && |s'.sinks| == |s.sinks| && TotalWork(s'.sinks) <= TotalWork(s.sinks) + 11
            && (Backlog(s) == 0 ==> TotalWork(s'.sinks) <= TotalWork(s.sinks) && Backlog(s') == 0)
  {
    if s.pc.Dispatch? && s.pc.sink < |s.sinks| {
      DispatchStepWork(s, content, ok, pick);
    } else if s.pc.ScanJoining? {
      JoinStepWork(s, content, ok, pick);
    } else {
      assert StepLog(s, content, ok, pick).value.sinks == s.sinks;
    }
  }

  /** An exited thread has nothing left in its queue. */
  lemma ExitedIsIdle(s: State, j: nat)
    requires Closing(s) && AllExited(s) && j < |s.sinks| && s.pc.Scanning? && s.sinks[j].entry.At?
    ensures Idle(s.sinks[j], s.sinks[j].entry.id)
  {
    var k := s.sinks[j];
    assert ThreadsOk(k, Away);
    assert !Stranded(k);
    assert HasExited(k, k.entry.id);
  }

  lemma QuietScanAdvances(s: State, content: Content, ok: bool, pick: nat)
    requires s.events == [] && s.pc.Scanning? && StepLog(s, content, ok, pick).Some?
    requires pick < |s.sinks| && s.sinks[pick].entry.At? ==> Idle(s.sinks[pick], s.sinks[pick].entry.id)
    ensures var s' := StepLog(s, content, ok, pick).value; s'.pc == Crashed || LogRank(s') < LogRank(s)
  {
    if s.pc.todo != {} { assert |s.pc.todo - {pick}| == |s.pc.todo| - 1; }
  }

  /** Once every retry thread has exited, every step of the log thread is progress. */
  lemma QuietLogAdvances(s: State, content: Content, ok: bool, pick: nat)
    requires Closing(s) && Backlog(s) == 0 && AllExited(s) && StepLog(s, content, ok, pick).Some?
    ensures var s' := StepLog(s, content, ok, pick).value; s'.pc == Crashed || LogRank(s') < LogRank(s)
  {
    if s.pc.Scanning? {
      if pick < |s.sinks| && s.sinks[pick].entry.At? { ExitedIsIdle(s, pick); }
      QuietScanAdvances(s, content, ok, pick);
    } else {
      KeysSize(s);
      QuietRoundAdvances(s, content, ok, pick);
    }
  }

  lemma QuietRoundAdvances(s: State, content: Content, ok: bool, pick: nat)
    requires Backlog(s) == 0 && !s.pc.Scanning? && s.terminate && StepLog(s, content, ok, pick).Some?
    requires |RetryKeys(s)| <= |s.sinks|
    ensures LogRank(StepLog(s, content, ok, pick).value) < LogRank(s)
  {
  }

  /** Joining ends threads that have exited; nothing else changes which threads have. */
  lemma LogKeepsLife(s: State, content: Content, ok: bool, pick: nat)
    requires Inv(s) && Backlog(s) == 0 && StepLog(s, content, ok, pick).Some?
    ensures AllExited(StepLog(s, content, ok, pick).value) <==> AllExited(s)
  {
    var s' := StepLog(s, content, ok, pick).value;
    if s.pc.ScanJoining? {
      var j := s.pc.sink;
      assert forall k, id :: 0 <= k < |s.sinks| && id in s.sinks[k].threads && !(k == j && id == s.pc.id) ==>
                               id in s'.sinks[k].threads && s'.sinks[k].threads[id] == s.sinks[k].threads[id];
    } else {
      assert s'.sinks == s.sinks;
    }
  }

  /** `HandingOver` for the numbers of two states. */
  lemma HandedOver(s: State, s': State)
    requires !Over(s) && |s'.sinks| == |s.sinks| && Backlog(s) > 0 && TotalWork(s'.sinks) <= TotalWork(s.sinks) + 11
    requires 0 <= LogRank(s) && 0 <= LogRank(s') < RankBound(|s.sinks|)
    requires Backlog(s') < Backlog(s) || (Backlog(s') == Backlog(s) && LogRank(s') < LogRank(s))
    ensures RoundsNeeded(s') < RoundsNeeded(s)
  {
    HandingOver(|s.sinks|, Backlog(s), LogRank(s), TotalWork(s.sinks), AllExited(s),
                Backlog(s'), LogRank(s'), TotalWork(s'.sinks), AllExited(s'));
    NeededPositive(|s.sinks|, Backlog(s), LogRank(s), TotalWork(s.sinks), AllExited(s));
  }

  lemma HandOverBound(s: State, content: Content, ok: bool, pick: nat)
    requires Inv(s) && Backlog(s) > 0 && StepLog(s, content, ok, pick).Some?
    requires Inv(StepLog(s, content, ok, pick).value) && StepLog(s, content, ok, pick).value.pc != Crashed
    ensures RoundsNeeded(StepLog(s, content, ok, pick).value) < RoundsNeeded(s)
  {
    var s' := StepLog(s, content, ok, pick).value;
    RankRange(s);
    RankRange(s');
    LogWork(s, content, ok, pick);
    LogAdvances(s, content, ok, pick);
    HandedOver(s, s');
  }

  lemma QuietBound(s: State, content: Content, ok: bool, pick: nat)
    requires Closing(s) && Backlog(s) == 0 && StepLog(s, content, ok, pick).Some?
    requires Inv(StepLog(s, content, ok, pick).value) && StepLog(s, content, ok, pick).value.pc != Crashed
    ensures RoundsNeeded(StepLog(s, content, ok, pick).value) <= RoundsNeeded(s)
    ensures AllExited(s) ==> RoundsNeeded(StepLog(s, content, ok, pick).value) < RoundsNeeded(s)
  {
    LogWork(s, content, ok, pick);
    LogKeepsLife(s, content, ok, pick);
    if AllExited(s) { QuietLogAdvances(s, content, ok, pick); }
    Positive(s);
    StillQuiet(s, StepLog(s, content, ok, pick).value);
  }

  lemma StillQuiet(s: State, s': State)
    requires !Over(s) && Backlog(s) == Backlog(s') == 0 && |s'.sinks| == |s.sinks| && AllExited(s') == AllExited(s)
    requires TotalWork(s'.sinks) <= TotalWork(s.sinks) && (AllExited(s) ==> LogRank(s') < LogRank(s))
    requires RoundsNeeded(s) > 0
    ensures RoundsNeeded(s') <= RoundsNeeded(s) && (AllExited(s) ==> RoundsNeeded(s') < RoundsNeeded(s))
  {
  }

  lemma LogStepBound(s: State, content: Content, ok: bool, pick: nat)
    requires Closing(s) && StepLog(s, content, ok, pick).Some? && Inv(StepLog(s, content, ok, pick).value)
    ensures var s' := StepLog(s, content, ok, pick).value;
            && RoundsNeeded(s') <= RoundsNeeded(s)
            && (Backlog(s) > 0 || AllExited(s) ==> RoundsNeeded(s') < RoundsNeeded(s))
  {
    if StepLog(s, content, ok, pick).value.pc == Crashed {
      Positive(s);
    } else if Backlog(s) > 0 {
      HandOverBound(s, content, ok, pick);
    } else {
      QuietBound(s, content, ok, pick);
    }
  }

  lemma RankPositive(s: State)
    requires Inv(s) && !Over(s) && Backlog(s) == 0
    ensures LogRank(s) > 0
  {
  }

  lemma Positive(s: State)
    requires Inv(s) && !Over(s)
    ensures RoundsNeeded(s) > 0
  {
    RankRange(s);
    if Backlog(s) == 0 { RankPositive(s); }
    NeededPositive(|s.sinks|, Backlog(s), LogRank(s), TotalWork(s.sinks), AllExited(s));
  }

  // ---------- the other steps ----------

  /** What a step of a retry thread does to the work of its sink. */
  lemma RetryStepWork(k: Sink, here: Here, base: nat, id: nat, content: Content, now: Clock)
    requires SinkInv(k, here, base) && StepRetry(k, id, content, true, now).Some?
    ensures k.threads[id].pc != Exited
    ensures var k' := StepRetry(k, id, content, true, now).value;
            if k.entry == At(id) then SinkWork(k') < SinkWork(k) else SinkWork(k') == SinkWork(k) && !k.entry.At?
    ensures !here.FirstPush? && !here.Emplacing? ==> k.entry == At(id)
  {
    assert k.threads.Keys == {id};
    if k.entry == At(id) { RetryWorksOff(k, id, content, now); }
  }

  /** `WorkingOff` for the numbers of two states. */
  lemma WorkedOff(s: State, s': State)
    requires s'.pc == s.pc && s'.events == s.events && s'.local == s.local && |s'.sinks| == |s.sinks| && !AllExited(s)
    requires 0 <= LogRank(s) < RankBound(|s.sinks|) && LogRank(s') == LogRank(s)
    requires TotalWork(s'.sinks) <= TotalWork(s.sinks) && (Backlog(s) == 0 ==> TotalWork(s'.sinks) < TotalWork(s.sinks))
    ensures RoundsNeeded(s') <= RoundsNeeded(s)
    ensures !Over(s) && TotalWork(s'.sinks) < TotalWork(s.sinks) ==> RoundsNeeded(s') < RoundsNeeded(s)
  {
    WorkingOff(|s.sinks|, Backlog(s), LogRank(s), TotalWork(s.sinks), AllExited(s), TotalWork(s'.sinks), AllExited(s'));
  }

  /** Outside the construction of a retry thread the map points to every live one. */
  lemma LiveIsMapped(s: State, content: Content, j: nat, id: nat, now: Clock)
    requires Inv(s) && j < |s.sinks| && StepRetry(s.sinks[j], id, content, true, now).Some?
    ensures var k := s.sinks[j]; var k' := StepRetry(k, id, content, true, now).value;
            && !AllExited(s)
            && (if k.entry == At(id) then SinkWork(k') < SinkWork(k) else SinkWork(k') == SinkWork(k) && !k.entry.At?)
            && (Backlog(s) == 0 ==> k.entry == At(id))
  {
    var k := s.sinks[j];
    RetryStepWork(k, HereOf(s.pc, j), Handled(s, j), id, content, now);
    assert id in s.sinks[j].threads;
  }

  /** A retry step: progress whenever the map points to the thread. */
  lemma RetryStepBound(s: State, content: Content, j: nat, id: nat, now: Clock)
    requires Inv(s) && j < |s.sinks| && StepRetry(s.sinks[j], id, content, true, now).Some?
    ensures var s' := s.(sinks := s.sinks[j := StepRetry(s.sinks[j], id, content, true, now).value]);
            && RoundsNeeded(s') <= RoundsNeeded(s)
            && (!Over(s) && s.sinks[j].entry == At(id) ==> RoundsNeeded(s') < RoundsNeeded(s))
  {
    var k' := StepRetry(s.sinks[j], id, content, true, now).value;
    LiveIsMapped(s, content, j, id, now);
    WorkUpdate(s.sinks, j, k');
    RankRange(s);
    WorkedOff(s, s.(sinks := s.sinks[j := k']));
  }

  /** The sinks' records keep their threads and entries. */
  predicate SameThreads(s: State, s': State) {
    |s'.sinks| == |s.sinks|
    && forall k :: 0 <= k < |s.sinks| ==> s'.sinks[k].threads == s.sinks[k].threads && s'.sinks[k].entry == s.sinks[k].entry
  }

  lemma SideStep(s: State, content: Content, a: Action)
    requires Step(s, content, a).Some? && (a.RequestStop? || a.Notify? || a.SpuriousWakeup? || a.SetMinLevel?)
    ensures var s' := Step(s, content, a).value;
            && SameThreads(s, s') && TotalWork(s'.sinks) == TotalWork(s.sinks)
            && s'.events == s.events && s'.local == s.local
            && (s'.pc == s.pc || (s.pc.Waiting? && s'.pc == Waiting(true)))
  {
    if a.SetMinLevel? {
      WorkUpdate(s.sinks, a.sink, s.sinks[a.sink].(minLevel := a.level));
    }
  }

  lemma SameLife(s: State, s': State)
    requires SameThreads(s, s')
    ensures AllExited(s') <==> AllExited(s)
  {
  }

  lemma WokenRank(s: State, s': State)
    requires |s'.sinks| == |s.sinks| && s'.events == s.events
    requires s'.pc == s.pc || (s.pc.Waiting? && s'.pc == Waiting(true))
    ensures LogRank(s') <= LogRank(s)
    ensures s.pc == Waiting(false) && s'.pc != s.pc ==> LogRank(s') < LogRank(s)
  {
  }

  /** The log thread may be woken, and nothing else happens. */
  lemma WokenBound(s: State, s': State)
    requires SameThreads(s, s') && TotalWork(s'.sinks) == TotalWork(s.sinks)
    requires s'.events == s.events && s'.local == s.local
    requires s'.pc == s.pc || (s.pc.Waiting? && s'.pc == Waiting(true))
    ensures RoundsNeeded(s') <= RoundsNeeded(s)
    ensures s.pc == Waiting(false) && s'.pc != s.pc && (Backlog(s) > 0 || AllExited(s)) ==>
              RoundsNeeded(s') < RoundsNeeded(s)
  {
    SameLife(s, s');
    WokenRank(s, s');
    RankMonotone(|s.sinks|, Backlog(s), LogRank(s), TotalWork(s.sinks), AllExited(s), LogRank(s'));
  }

  /** Steps of the environment never cost rounds; a notification the log thread waits for saves one. */
  lemma SideStepBound(s: State, content: Content, a: Action)
    requires Step(s, content, a).Some?
    requires a.RequestStop? || a.Notify? || a.SpuriousWakeup? || a.SetMinLevel?
    ensures var s' := Step(s, content, a).value;
            && RoundsNeeded(s') <= RoundsNeeded(s)
            && (s.pc == Waiting(false) && s'.pc != s.pc && (Backlog(s) > 0 || AllExited(s)) ==>
                  RoundsNeeded(s') < RoundsNeeded(s))
  {
    SideStep(s, content, a);
    WokenBound(s, Step(s, content, a).value);
  }

  lemma RankMonotone(n: nat, b: nat, r: int, w: nat, e: bool, r': int)
    requires r' <= r
    ensures Needed(n, b, r', w, e) <= Needed(n, b, r, w, e)
    ensures r' < r && (b > 0 || e) ==> Needed(n, b, r', w, e) < Needed(n, b, r, w, e)
  {
  }

  lemma ClosingStays(s: State, content: Content, a: Action)
    requires Closing(s) && Step(s, content, a).Some? && !RacingExit(s, a)
    ensures Closing(Step(s, content, a).value)
  {
    StepKeeps(s, content, a);
    LeftBehindIffRacingExit(s, content, a);
    if a.LogStep? { LogKeepsTerminate(s, content, a.ok, a.pick); }
  }

  /** No cooperative step without the race costs rounds. */
  lemma StepBound(s: State, content: Content, a: Action)
    requires Closing(s) && Cooperative(a) && !RacingExit(s, a) && Step(s, content, a).Some?
    ensures Closing(Step(s, content, a).value) && RoundsNeeded(Step(s, content, a).value) <= RoundsNeeded(s)
  {
    ClosingStays(s, content, a);
    match a
    case LogStep(ok, pick) => LogStepBound(s, content, ok, pick);
    case RetryStep(j, id, _, now) => RetryStepBound(s, content, j, id, now);
    case _ => SideStepBound(s, content, a);
  }

  // ---------- the thread that matters ----------

  /** The log thread is not waiting for anybody. */
  predicate LoggerReady(s: State) {
    match s.pc
    case Dispatch(j, here) =>
      here.Joining? && j < |s.sinks| ==> HasExited(s.sinks[j], here.id)
    case ScanJoining(j, id, _, _) => j < |s.sinks| && HasExited(s.sinks[j], id)
    case Waiting(woken) => woken
    case Returned => false
    case Crashed => false
    case _ => true
  }

  lemma ReadyIsEnabled(s: State, content: Content)
    requires Inv(s) && LoggerReady(s)
    ensures Enabled(s, content, Logger)
  {
    if s.pc.Scanning? && s.pc.todo != {} {
      var pick :| pick in s.pc.todo;
      assert StepLog(s, content, true, pick).Some?;
    } else {
      assert StepLog(s, content, true, 0).Some?;
    }
  }

  /** A step of this thread saves a round, and nobody can keep it from taking one. */
  ghost predicate Key(s: State, t: Thread) {
    match t
    case Logger => LoggerReady(s) && (Backlog(s) > 0 || AllExited(s))
    case Notifier => s.pc == Waiting(false) && (Backlog(s) > 0 || AllExited(s))
    case Retrier(j, id) => j < |s.sinks| && s.sinks[j].entry == At(id) && id in s.sinks[j].threads
                           && s.sinks[j].threads[id].pc != Exited
  }

  lemma KeyIsEnabled(s: State, content: Content, t: Thread)
    requires Closing(s) && !Over(s) && Key(s, t)
    ensures Enabled(s, content, t)
  {
    match t
    case Logger => ReadyIsEnabled(s, content);
    case Notifier =>
    case Retrier(j, id) =>
      assert ThreadsOk(s.sinks[j], HereOf(s.pc, j));
      RetryWorksOff(s.sinks[j], id, content, 0);
      assert Step(s, content, RetryStep(j, id, true, 0)).Some?;
  }

  /** There always is one. */
  lemma KeyExists(s: State) returns (t: Thread)
    requires Closing(s) && !Over(s)
    ensures Key(s, t)
  {
    if !AllExited(s) && Backlog(s) == 0 {
      var j, id :| 0 <= j < |s.sinks| && id in s.sinks[j].threads && s.sinks[j].threads[id].pc != Exited;
      assert ThreadsOk(s.sinks[j], HereOf(s.pc, j));
      t := Retrier(j, id);
    } else if LoggerReady(s) {
      t := Logger;
    } else if s.pc.Waiting? {
      t := Notifier;
    } else {
      var j := s.pc.sink;
      var id := if s.pc.ScanJoining? then s.pc.id else s.pc.here.id;
      assert ThreadsOk(s.sinks[j], HereOf(s.pc, j));
      t := Retrier(j, id);
    }
  }

  lemma KeyActs(s: State, content: Content, t: Thread, a: Action)
    requires Closing(s) && !Over(s) && Key(s, t) && ActsFor(a, t)
    requires Cooperative(a) && !RacingExit(s, a) && Step(s, content, a).Some?
    ensures RoundsNeeded(Step(s, content, a).value) < RoundsNeeded(s)
  {
    ClosingStays(s, content, a);
    match t
    case Logger => LogStepBound(s, content, a.ok, a.pick);
    case Notifier => SideStepBound(s, content, a);
    case Retrier(j, id) => RetryStepBound(s, content, j, id, a.now);
  }

  lemma LogKeepsThread(s: State, content: Content, ok: bool, pick: nat, j: nat, id: nat)
    requires Inv(s) && Key(s, Retrier(j, id)) && StepLog(s, content, ok, pick).Some?
    ensures Key(StepLog(s, content, ok, pick).value, Retrier(j, id))
  {
    var s' := StepLog(s, content, ok, pick).value;
    if s.pc.Dispatch? && s.pc.sink == j {
      DispatchKeepsThread(s.sinks[j], s.pc.here, Handled(s, j), id, s.local[0], content, ok);
    } else if s.pc.ScanJoining? && s.pc.sink == j {
      assert false;
    } else {
      assert s'.sinks[j] == s.sinks[j];
    }
  }

  lemma DispatchKeepsThread(k: Sink, here: Here, base: nat, id: nat, t: Ticket, content: Content, ok: bool)
    requires SinkInv(k, here, base) && StepDispatch(k, here, t, content, ok).Some?
    requires k.entry == At(id) && id in k.threads && k.threads[id].pc != Exited
    ensures var k' := StepDispatch(k, here, t, content, ok).value.0;
            k'.entry == At(id) && id in k'.threads && k'.threads[id].pc != Exited
  {
  }

  lemma RetryKeepsKey(s: State, content: Content, t: Thread, a: Action)
    requires Closing(s) && !Over(s) && Key(s, t) && a.RetryStep? && a.ok && Step(s, content, a).Some?
    ensures var s' := Step(s, content, a).value; RoundsNeeded(s') < RoundsNeeded(s) || (Key(s', t) && !ActsFor(a, t))
  {
    RetryStepBound(s, content, a.sink, a.id, a.now);
    if s.sinks[a.sink].entry != At(a.id) {
      UnmappedKeepsKey(s, content, t, a);
    }
  }

  /** A retry thread the map does not point to yet changes nothing that matters. */
  lemma UnmappedKeepsKey(s: State, content: Content, t: Thread, a: Action)
    requires Inv(s) && Key(s, t) && a.RetryStep? && Step(s, content, a).Some? && s.sinks[a.sink].entry != At(a.id)
    ensures Key(Step(s, content, a).value, t) && !ActsFor(a, t)
  {
    assert ThreadsOk(s.sinks[a.sink], HereOf(s.pc, a.sink));
    assert s.sinks[a.sink].threads.Keys == {a.id};
    assert !AllExited(s) by { assert s.sinks[a.sink].threads[a.id].pc != Exited; }
  }

  lemma SideKeepsKey(s: State, content: Content, t: Thread, a: Action)
    requires Key(s, t) && Step(s, content, a).Some?
    requires a.RequestStop? || a.Notify? || a.SpuriousWakeup? || a.SetMinLevel?
    ensures var s' := Step(s, content, a).value; RoundsNeeded(s') < RoundsNeeded(s) || (Key(s', t) && !ActsFor(a, t))
  {
    var s' := Step(s, content, a).value;
    SideStepBound(s, content, a);
    SideStep(s, content, a);
    SameLife(s, s');
    match t
    case Logger => SameReady(s, s');
    case Notifier => if a.Notify? { NotifyWakes(s, content, a); }
    case Retrier(_, _) =>
  }

  lemma NotifyWakes(s: State, content: Content, a: Action)
    requires s.pc == Waiting(false) && a.Notify? && Step(s, content, a).Some?
    ensures Step(s, content, a).value.pc == Waiting(true)
  {
  }

  lemma SameReady(s: State, s': State)
    requires SameThreads(s, s') && LoggerReady(s) && (s'.pc == s.pc || s'.pc == Waiting(true))
    ensures LoggerReady(s')
  {
  }

  /** Whatever the others do, it stays that thread until some step has saved a round. */
  lemma KeyStays(s: State, content: Content, t: Thread, a: Action)
    requires Closing(s) && !Over(s) && Key(s, t) && Cooperative(a) && !RacingExit(s, a) && Step(s, content, a).Some?
    ensures var s' := Step(s, content, a).value; RoundsNeeded(s') < RoundsNeeded(s) || (Key(s', t) && !ActsFor(a, t))
  {
    match a
    case LogStep(ok, pick) => LogKeepsKey(s, content, t, ok, pick);
    case RetryStep(_, _, _, _) => RetryKeepsKey(s, content, t, a);
    case _ => SideKeepsKey(s, content, t, a);
  }

  lemma LogKeepsKey(s: State, content: Content, t: Thread, ok: bool, pick: nat)
    requires Closing(s) && !Over(s) && Key(s, t) && StepLog(s, content, ok, pick).Some?
    ensures var s' := StepLog(s, content, ok, pick).value;
            RoundsNeeded(s') < RoundsNeeded(s) || (Key(s', t) && t.Retrier?)
  {
    match t
    case Retrier(j, id) => LogKeepsThread(s, content, ok, pick, j, id);
    case Logger => LogSaves(s, content, ok, pick);
    case Notifier =>
  }

  lemma LogSaves(s: State, content: Content, ok: bool, pick: nat)
    requires Closing(s) && (Backlog(s) > 0 || AllExited(s)) && StepLog(s, content, ok, pick).Some?
    ensures RoundsNeeded(StepLog(s, content, ok, pick).value) < RoundsNeeded(s)
  {
    ClosingStays(s, content, LogStep(ok, pick));
    LogStepBound(s, content, ok, pick);
  }

  // ---------- rounds ----------

  lemma {:induction false} RoundKeeps(s: State, content: Content, round: seq<Action>)
    requires Closing(s) && Exec(s, content, round).Some? && AllCooperative(round) && RaceFree(s, content, round)
    ensures var end := Exec(s, content, round).value; Closing(end) && RoundsNeeded(end) <= RoundsNeeded(s)
    decreases |round|
  {
    if round != [] {
      assert Cooperative(round[0]);
      StepBound(s, content, round[0]);
      RoundKeeps(Step(s, content, round[0]).value, content, round[1..]);
    }
  }

  /** A round in which the thread that matters is served saves at least one round. */
  lemma {:induction false} RoundHelpsShutdown(s: State, content: Content, round: seq<Action>, t: Thread)
    requires Closing(s) && !Over(s) && Key(s, t)
    requires Exec(s, content, round).Some? && AllCooperative(round) && RaceFree(s, content, round)
    requires Served(s, content, round, t)
    ensures RoundsNeeded(Exec(s, content, round).value) < RoundsNeeded(s)
    decreases |round|
  {
    KeyIsEnabled(s, content, t);
    var a, next := round[0], Step(s, content, round[0]).value;
    assert Cooperative(a);
    StepBound(s, content, a);
    if RoundsNeeded(next) < RoundsNeeded(s) {
      RoundKeeps(next, content, round[1..]);
    } else {
      KeyStays(s, content, t, a);
      Positive(s);
      RoundHelpsShutdown(next, content, round[1..], t);
    }
  }

  lemma NotNeededIsOver(s: State)
    requires Inv(s) && RoundsNeeded(s) <= 0
    ensures Over(s)
  {
    if !Over(s) { Positive(s); }
  }

  lemma NeverNegative(s: State)
    requires Inv(s)
    ensures RoundsNeeded(s) >= 0
  {
    if !Over(s) { Positive(s); }
  }

  /** After as many fair rounds as needed `do_run` has come to its end. */
  lemma {:induction false} FairRunEnds(s: State, content: Content, rounds: seq<seq<Action>>)
    requires Closing(s) && FairRun(s, content, rounds) && |rounds| >= RoundsNeeded(s)
    ensures Closing(EndOf(s, content, rounds)) && Over(EndOf(s, content, rounds))
    decreases |rounds|
  {
    if rounds == [] {
      NotNeededIsOver(s);
    } else {
      var next := Exec(s, content, rounds[0]).value;
      RoundKeeps(s, content, rounds[0]);
      if Over(s) {
        NeverNegative(next);
      } else {
        var t := KeyExists(s);
        assert Served(s, content, rounds[0], t);
        RoundHelpsShutdown(s, content, rounds[0], t);
      }
      FairRunEnds(next, content, rounds[1..]);
    }
  }

  // ---------- the theorems ----------

  /** What a run leads to in which the race is not lost. */
  lemma RaceFreeIsClosing(levels: seq<Level>, guarded: bool, content: Content, history: seq<Action>)
    requires Exec(Init(levels, guarded), content, history).Some? && RaceFree(Init(levels, guarded), content, history)
    requires Exec(Init(levels, guarded), content, history).value.terminate
    ensures Closing(Exec(Init(levels, guarded), content, history).value)
  {
    InitInv(levels, guarded);
    ExecKeeps(Init(levels, guarded), content, history);
    RaceFreeLeavesNothingBehind(Init(levels, guarded), content, history);
  }

  /** Rounds are runs. */
  lemma {:induction false} RoundsAreRuns(s: State, content: Content, rounds: seq<seq<Action>>)
    requires FairRun(s, content, rounds)
    ensures Leads(s, content, EndOf(s, content, rounds))
    decreases |rounds|
  {
    if rounds == [] {
      LeadsRefl(s, content);
    } else {
      var next := Exec(s, content, rounds[0]).value;
      RoundsAreRuns(next, content, rounds[1..]);
      LeadsTrans(s, content, next, EndOf(s, content, rounds));
    }
  }

  /** The code as it is, with any number of sinks: every fair run ends, by returning or at the null
      dereference. */
  lemma FairShutdownEnds(levels: seq<Level>, guarded: bool, content: Content, history: seq<Action>, rounds: seq<seq<Action>>)
    requires Exec(Init(levels, guarded), content, history).Some? && RaceFree(Init(levels, guarded), content, history)
    requires Exec(Init(levels, guarded), content, history).value.terminate
    requires FairRun(Exec(Init(levels, guarded), content, history).value, content, rounds)
    requires |rounds| >= RoundsNeeded(Exec(Init(levels, guarded), content, history).value)
    ensures Over(EndOf(Exec(Init(levels, guarded), content, history).value, content, rounds))
  {
    RaceFreeIsClosing(levels, guarded, content, history);
    FairRunEnds(Exec(Init(levels, guarded), content, history).value, content, rounds);
  }

  /** With one sink, or with the guard in the scan, every fair run returns: checking and enqueuing as
      one step is all that the documented intent needs then. */
  lemma FairShutdownReturns(levels: seq<Level>, guarded: bool, content: Content, history: seq<Action>, rounds: seq<seq<Action>>)
    requires |levels| <= 1 || guarded
    requires Exec(Init(levels, guarded), content, history).Some? && RaceFree(Init(levels, guarded), content, history)
    requires Exec(Init(levels, guarded), content, history).value.terminate
    requires FairRun(Exec(Init(levels, guarded), content, history).value, content, rounds)
    requires |rounds| >= RoundsNeeded(Exec(Init(levels, guarded), content, history).value)
    ensures EndOf(Exec(Init(levels, guarded), content, history).value, content, rounds).pc == Returned
  {
    var start := Init(levels, guarded);
    var s := Exec(start, content, history).value;
    var end := EndOf(s, content, rounds);
    FairShutdownEnds(levels, guarded, content, history, rounds);
    RoundsAreRuns(s, content, rounds);
    assert Leads(start, content, s);
    LeadsTrans(start, content, s, end);
    var all :| Exec(start, content, all) == Some(end);
    ExecShape(start, content, all);
    assert Reachable(levels, content, end);
    if guarded { GuardNeverCrashes(levels, content, end); } else { OneSinkNeverCrashes(levels, content, end); }
  }

  /** With one sink the race is all that decides: if an event was left behind no run without new
      events returns, otherwise every fair run does. */
  lemma OneSinkShutdownIffNothingLeftBehind(levels: seq<Level>, content: Content, s: State)
    requires |levels| <= 1 && Reachable(levels, content, s) && s.terminate
    ensures LeftBehind(s) ==>
              forall schedule :: NoNewEvents(schedule) && Exec(s, content, schedule).Some? ==>
                Exec(s, content, schedule).value.pc != Returned
    ensures !LeftBehind(s) ==>
              forall rounds :: FairRun(s, content, rounds) && |rounds| >= RoundsNeeded(s) ==>
                EndOf(s, content, rounds).pc == Returned
  {
    ReachableInv(levels, content, s);
    if LeftBehind(s) {
      forall schedule | NoNewEvents(schedule) && Exec(s, content, schedule).Some?
        ensures Exec(s, content, schedule).value.pc != Returned
      {
        DoomedNeverReturns(s, content, schedule);
      }
    } else {
      forall rounds | FairRun(s, content, rounds) && |rounds| >= RoundsNeeded(s)
        ensures EndOf(s, content, rounds).pc == Returned
      {
        FairRunEnds(s, content, rounds);
        RoundsAreRuns(s, content, rounds);
        ReachableOn(levels, content, s, EndOf(s, content, rounds));
        OneSinkNeverCrashes(levels, content, EndOf(s, content, rounds));
      }
    }
  }

  lemma ReachableOn(levels: seq<Level>, content: Content, s: State, s': State)
    requires Reachable(levels, content, s) && Leads(s, content, s')
    ensures Reachable(levels, content, s')
  {
    var start := Init(levels, s.guarded);
    assert Leads(start, content, s);
    LeadsTrans(start, content, s, s');
    var all :| Exec(start, content, all) == Some(s');
    ExecShape(start, content, all);
  }

  // ---------- fair runs exist ----------

  /** Friendly runs avoid the race. */
  lemma {:induction false} FriendlyRound(s: State, content: Content) returns (round: seq<Action>)
    requires Closing(s) && !Doomed(s)
    ensures Exec(s, content, round).Some? && AllCooperative(round) && RaceFree(s, content, round)
    ensures Exec(s, content, round).value.pc == Returned
    decreases Backlog(s), LogRank(s), TotalWork(s.sinks)
  {
    if s.pc == Returned {
      round := [];
    } else {
      var a := HelpfulStep(s, content);
      StepKeeps(s, content, a);
      LeftBehindIffRacingExit(s, content, a);
      RankRange(s);
      var rest := FriendlyRound(Step(s, content, a).value, content);
      round := [a] + rest;
      assert round[1..] == rest;
    }
  }

  lemma {:induction false} NotifyAll(s: State, content: Content) returns (round: seq<Action>)
    requires Closing(s) && s.pc == Returned
    ensures Exec(s, content, round) == Some(s.(unnotified := 0)) && AllCooperative(round) && RaceFree(s, content, round)
    decreases s.unnotified
  {
    if s.unnotified == 0 {
      round := [];
      assert s.(unnotified := 0) == s;
    } else {
      ClosingStays(s, content, Notify);
      var rest := NotifyAll(Step(s, content, Notify).value, content);
      round := [Notify] + rest;
      assert round[1..] == rest;
    }
  }

  lemma HeadOfConcat(a: seq<Action>, b: seq<Action>)
    requires a != []
    ensures (a + b)[0] == a[0] && (a + b)[1..] == a[1..] + b
  {
  }

  lemma {:induction false} RaceFreeConcat(s: State, content: Content, a: seq<Action>, b: seq<Action>)
    requires Exec(s, content, a).Some? && RaceFree(s, content, a) && RaceFree(Exec(s, content, a).value, content, b)
    ensures RaceFree(s, content, a + b)
    decreases |a|
  {
    if a == [] {
      assert a + b == b;
    } else {
      RaceFreeConcat(Step(s, content, a[0]).value, content, a[1..], b);
      HeadOfConcat(a, b);
    }
  }

  /** Whoever cannot move at the end of a round has been served in it. */
  lemma {:induction false} IdleIsServed(s: State, content: Content, round: seq<Action>, t: Thread)
    requires Exec(s, content, round).Some? && !Enabled(Exec(s, content, round).value, content, t)
    ensures Served(s, content, round, t)
    decreases |round|
  {
    if round != [] { IdleIsServed(Step(s, content, round[0]).value, content, round[1..], t); }
  }

  lemma NobodyMoves(s: State, content: Content, t: Thread)
    requires Closing(s) && s.pc == Returned && s.unnotified == 0
    ensures !Enabled(s, content, t)
  {
    match t
    case Retrier(j, id) =>
      if j < |s.sinks| {
        assert ThreadsOk(s.sinks[j], Away);
        assert s.sinks[j].threads.Keys == {};
      }
    case _ =>
  }

  /** From every state in which shutdown is not blocked there are fair runs of any length. */
  lemma {:induction false} FairRunsExist(s: State, content: Content, n: nat) returns (rounds: seq<seq<Action>>)
    requires Closing(s) && !Doomed(s)
    ensures |rounds| == n && FairRun(s, content, rounds)
    decreases n
  {
    if n == 0 {
      rounds := [];
    } else {
      var first := FriendlyRound(s, content);
      var returned := Exec(s, content, first).value;
      RoundKeeps(s, content, first);
      var second := NotifyAll(returned, content);
      RoundKeeps(returned, content, second);
      var round, end := first + second, returned.(unnotified := 0);
      ExecConcat(s, content, first, second);
      RaceFreeConcat(s, content, first, second);
      forall t ensures Served(s, content, round, t) {
        NobodyMoves(end, content, t);
        IdleIsServed(s, content, round, t);
      }
      ReturnedIsNotDoomed(end);
      var rest := FairRunsExist(end, content, n - 1);
      rounds := [round] + rest;
      assert rounds[1..] == rest;
    }
  }
}
