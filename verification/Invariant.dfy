/**
 What every step of the delivery protocol keeps.

 The invariant is local: `SinkInv` speaks of one sink, of what the log thread is doing at that
 sink, and of the number of events it has already handled there.
 */
module Invariant {
  import opened Wrappers
  import opened LogEvents
  import opened Protocol

  ghost predicate Increasing(s: seq<Ticket>) {
    forall i, j :: 0 <= i < j < |s| ==> s[i] < s[j]
  }

  // ---------- one sink ----------

  function LiveThread(k: Sink, here: Here): Option<nat> {
    match here
    case FirstPush(id) => Some(id)
    case Emplacing(id) => Some(id)
    case Offering => None
    case Delivering => None
    case Spawning => None
    case _ => if k.entry.At? then Some(k.entry.id) else None
  }

  /** What a retry thread still owes: an event is no longer owed once its write returned true,
      even while it waits to be popped. */
  function Owed(r: Retry): seq<Ticket> {
    if r.pc.Popping? && r.queue != [] then r.queue[1..] else r.queue
  }

  function InRetry(k: Sink, here: Here): seq<Ticket> {
    match LiveThread(k, here)
    case None => []
    case Some(id) => if id in k.threads then Owed(k.threads[id]) else []
  }

  ghost predicate RetryOk(r: Retry, accepted: seq<Ticket>) {
    match r.pc
    case Filtering(t) => r.queue != [] && r.queue[0] == t
    case Sending(t) => r.queue != [] && r.queue[0] == t
    case Popping(t) => r.queue != [] && r.queue[0] == t && accepted != [] && accepted[|accepted| - 1] == t
    case _ => true
  }

  ghost predicate ThreadsOk(k: Sink, here: Here) {
    && k.threads.Keys == (match LiveThread(k, here) case None => {} case Some(id) => {id})
    && (forall id :: id in k.threads ==> id < k.spawned && RetryOk(k.threads[id], k.accepted))
    && (match here
        case Joining(id) => k.entry == At(id) && k.threads[id].queue == []
        case Pushing(id) => k.entry == At(id)
        case Offering => k.entry == Absent
        case Delivering => k.entry == Absent
        case Spawning => k.entry == Absent
        case FirstPush(id) => k.entry == Absent && k.threads[id].queue == []
        case Emplacing(id) => k.entry == Absent && |k.threads[id].queue| <= 1
        case _ => true)
  }

  /** Every event below `done` is in exactly one place, and nothing else is anywhere. */
  ghost predicate OnePlace(k: Sink, queue: seq<Ticket>, done: nat) {
    && (forall t: Ticket :: t < done <==> t in k.accepted || t in k.expired || t in k.dropped || t in queue)
    && (forall t :: t in k.accepted ==> t !in k.expired && t !in k.dropped && t !in queue)
    && (forall t :: t in k.expired ==> t !in k.dropped && t !in queue)
    && (forall t :: t in k.dropped ==> t !in queue)
  }

  /** Accepted writes followed by what is still queued is in enqueue order. */
  ghost predicate HistoryOk(k: Sink, queue: seq<Ticket>, done: nat) {
    && Increasing(k.accepted + queue)
    && OnePlace(k, queue, done)
    && Increasing(k.delivered)
    && (forall t :: t in k.delivered ==> t in k.accepted)
  }

  function DoneAt(here: Here, base: nat): nat {
    if here.Emplacing? then base + 1 else base
  }

  ghost predicate SinkInv(k: Sink, here: Here, base: nat) {
    ThreadsOk(k, here) && HistoryOk(k, InRetry(k, here), DoneAt(here, base))
  }

  // ---------- the whole state ----------

  function HereOf(pc: LogPc, sink: nat): Here {
    match pc
    case Dispatch(j, here) => if j == sink then here else Away
    case ScanJoining(j, id, _, _) => if j == sink then Joining(id) else Away
    case _ => Away
  }

  /** The current event has already been through this sink. */
  predicate Passed(pc: LogPc, sink: nat) {
    pc.Dispatch? && sink < pc.sink
  }

  /** Number of events the log thread has taken through a sink. */
  function Handled(s: State, sink: nat): int {
    s.enqueued - |s.events| - |s.local| + (if Passed(s.pc, sink) then 1 else 0)
  }

  /** Batch and queue hold exactly the latest events, in order. */
  ghost predicate QueuesOk(s: State) {
    && |s.local| + |s.events| <= s.enqueued
    && (forall i :: 0 <= i < |s.events| ==> s.events[i] == s.enqueued - |s.events| + i)
    && (forall i :: 0 <= i < |s.local| ==> s.local[i] == s.enqueued - |s.events| - |s.local| + i)
    && (s.local != [] ==> s.pc.Fetching? || s.pc.Dispatch?)
  }

  /** A key outside `todo` has been visited: it is null, or its thread was active. */
  ghost predicate Visited(s: State, todo: set<nat>, still: bool) {
    && (forall k :: k in todo ==> k < |s.sinks| && s.sinks[k].entry != Absent)
    && (!still ==> forall k :: 0 <= k < |s.sinks| && k !in todo ==> !s.sinks[k].entry.At?)
  }

  ghost predicate PcOk(s: State) {
    match s.pc
    case Dispatch(j, here) =>
      && s.local != [] && j <= |s.sinks| && (j == |s.sinks| ==> here == Looking) && here != Away && here != Done
      && (forall k :: 0 <= k < j ==> s.sinks[k].entry != Null)
    case Waiting(woken) => (!woken && (s.events != [] || s.terminate)) ==> s.unnotified > 0
    case Scanning(todo, still) => s.terminate && Visited(s, todo, still)
    case ScanJoining(j, id, todo, still) =>
      s.terminate && j < |s.sinks| && j !in todo && Visited(s, todo + {j}, still)
    case Confirming => s.terminate && Visited(s, {}, false)
    case Returned => s.terminate && Visited(s, {}, false)
    case _ => true
  }

  ghost predicate Inv(s: State) {
    && QueuesOk(s)
    && PcOk(s)
    && (forall k :: 0 <= k < |s.sinks| ==> Handled(s, k) >= 0 && SinkInv(s.sinks[k], HereOf(s.pc, k), Handled(s, k)))
  }

  // ---------- a retry thread's step ----------

  lemma {:induction false} KeptProperties(queue: seq<Ticket>, content: Content, now: Clock)
    ensures forall t :: t in Kept(queue, content, now) <==> t in queue && !Expired(content(t), now)
    ensures Increasing(queue) ==> Increasing(Kept(queue, content, now))
  {
    if queue != [] {
      var head, rest := queue[0], queue[1..];
      assert queue == [head] + rest;
      IncreasingConcat([head], rest);
      KeptProperties(rest, content, now);
      IncreasingConcat([head], Kept(rest, content, now));
    }
  }

  lemma {:induction false} KeptShorter(queue: seq<Ticket>, content: Content, now: Clock)
    ensures |Kept(queue, content, now)| <= |queue|
  {
    if queue != [] { KeptShorter(queue[1..], content, now); }
  }

  lemma IncreasingConcat(a: seq<Ticket>, b: seq<Ticket>)
    ensures Increasing(a + b) <==> Increasing(a) && Increasing(b) && forall x, y :: x in a && y in b ==> x < y
  {
    var c := a + b;
    if Increasing(a) && Increasing(b) && forall x, y :: x in a && y in b ==> x < y {
      forall i, j | 0 <= i < j < |c| ensures c[i] < c[j] {
        assert i < |a| ==> c[i] in a;
        assert j >= |a| ==> c[j] in b;
      }
    }
    if Increasing(c) {
      forall i, j | 0 <= i < j < |a| ensures a[i] < a[j] {
        assert c[i] == a[i] && c[j] == a[j];
      }
      forall i, j | 0 <= i < j < |b| ensures b[i] < b[j] {
        assert c[|a| + i] == b[i] && c[|a| + j] == b[j];
      }
      forall x, y | x in a && y in b ensures x < y {
        var i :| 0 <= i < |a| && a[i] == x;
        var j :| 0 <= j < |b| && b[j] == y;
        assert c[i] == x && c[|a| + j] == y;
      }
    }
  }

  /** Moving the head of the queue to the accepted events keeps the history. */
  lemma AcceptHead(k: Sink, t: Ticket, rest: seq<Ticket>, sent: bool, done: nat)
    requires HistoryOk(k, [t] + rest, done)
    ensures HistoryOk(Accept(k, t, sent), rest, done)
  {
    assert k.accepted + ([t] + rest) == (k.accepted + [t]) + rest;
    IncreasingConcat(k.accepted, [t] + rest);
    IncreasingConcat(k.accepted + [t], rest);
    IncreasingConcat([t], rest);
    IncreasingConcat(k.delivered, [t]);
    assert t in [t] + rest;
    assert forall x :: x in [t] + rest <==> x == t || x in rest;
    assert forall x :: x in k.accepted + [t] <==> x == t || x in k.accepted;
    assert forall x :: x in k.delivered + [t] <==> x == t || x in k.delivered;
  }

  lemma ExpireKeeps(k: Sink, queue: seq<Ticket>, content: Content, now: Clock, done: nat)
    requires HistoryOk(k, queue, done)
    ensures HistoryOk(k.(expired := k.expired + Stale(queue, content, now)), Kept(queue, content, now), done)
  {
    IncreasingConcat(k.accepted, queue);
    KeptProperties(queue, content, now);
    IncreasingConcat(k.accepted, Kept(queue, content, now));
  }

  /** The history part of a retry thread's step. */
  lemma RetryHistory(k: Sink, id: nat, content: Content, ok: bool, now: Clock, done: nat)
    requires id in k.threads && RetryOk(k.threads[id], k.accepted)
    requires HistoryOk(k, Owed(k.threads[id]), done)
    requires StepRetry(k, id, content, ok, now).Some?
    ensures var k' := StepRetry(k, id, content, ok, now).value;
            HistoryOk(k', Owed(k'.threads[id]), done) && RetryOk(k'.threads[id], k'.accepted)
  {
    var r := k.threads[id];
    var k' := StepRetry(k, id, content, ok, now).value;
    match r.pc
    case Filtering(t) =>
      assert r.queue == [t] + r.queue[1..];
      if content(t).level.Below(k.minLevel) { AcceptHead(k, t, r.queue[1..], false, done); }
    case Sending(t) =>
      assert r.queue == [t] + r.queue[1..];
      if ok { AcceptHead(k, t, r.queue[1..], true, done); }
    case Expiring => ExpireKeeps(k, r.queue, content, now, done);
    case _ =>
  }

  /** The thread part of a retry thread's step. */
  lemma RetryThreadStep(k: Sink, here: Here, id: nat, content: Content, ok: bool, now: Clock)
    requires ThreadsOk(k, here) && StepRetry(k, id, content, ok, now).Some?
    ensures LiveThread(k, here) == Some(id)
    ensures var k' := StepRetry(k, id, content, ok, now).value;
            RetryOk(k'.threads[id], k'.accepted) ==> ThreadsOk(k', here) && InRetry(k', here) == Owed(k'.threads[id])
  {
    var k' := StepRetry(k, id, content, ok, now).value;
    KeptShorter(k.threads[id].queue, content, now);
    assert k.threads.Keys == {id} == k'.threads.Keys;
  }

  /** A retry thread's step keeps the invariant of its sink, whatever the log thread is doing there. */
  lemma RetryKeeps(k: Sink, here: Here, base: nat, id: nat, content: Content, ok: bool, now: Clock)
    requires SinkInv(k, here, base)
    requires StepRetry(k, id, content, ok, now).Some?
    ensures SinkInv(StepRetry(k, id, content, ok, now).value, here, base)
  {
    RetryThreadStep(k, here, id, content, ok, now);
    RetryHistory(k, id, content, ok, now, DoneAt(here, base));
  }

  // ---------- a step of the log thread at one sink ----------

  /** Event `done`, not seen before, is the next one in order. */
  lemma NextInOrder(k: Sink, queue: seq<Ticket>, done: nat)
    requires HistoryOk(k, queue, done)
    ensures Increasing(k.accepted + (queue + [done]))
    ensures forall t :: t in k.accepted || t in k.expired || t in k.dropped || t in queue ==> t < done
  {
    assert k.accepted + (queue + [done]) == (k.accepted + queue) + [done];
    IncreasingConcat(k.accepted + queue, [done]);
    assert forall t :: t in k.accepted + queue <==> t in k.accepted || t in queue;
  }

  lemma PushHistory(k: Sink, queue: seq<Ticket>, done: nat)
    requires HistoryOk(k, queue, done)
    ensures HistoryOk(k, queue + [done], done + 1)
  {
    NextInOrder(k, queue, done);
    assert forall t :: t in queue + [done] <==> t == done || t in queue;
  }

  lemma AcceptNext(k: Sink, sent: bool, done: nat)
    requires HistoryOk(k, [], done)
    ensures HistoryOk(Accept(k, done, sent), [], done + 1)
  {
    PushHistory(k, [], done);
    assert [] + [done] == [done] + [];
    AcceptHead(k, done, [], sent, done + 1);
  }

  lemma DropHistory(k: Sink, done: nat)
    requires HistoryOk(k, [], done)
    ensures HistoryOk(k.(dropped := k.dropped + {done}), [], done + 1)
  {
    NextInOrder(k, [], done);
  }

  /** What the log thread does at a sink next, as the rest of the program sees it. */
  function After(next: Here): Here {
    if next == Done then Away else next
  }

  /** The thread and entry part of a step of `log` at a sink. */
  lemma DispatchThreads(k: Sink, here: Here, t: Ticket, content: Content, ok: bool)
    requires ThreadsOk(k, here) && here != Away && here != Done
    requires StepDispatch(k, here, t, content, ok).Some?
    ensures var (k', next) := StepDispatch(k, here, t, content, ok).value;
            ThreadsOk(k', After(next)) && (next == Done ==> k'.entry != Null)
  {
  }

  /** The history part. */
  lemma DispatchHistory(k: Sink, here: Here, base: nat, content: Content, ok: bool)
    requires SinkInv(k, here, base) && here != Away && here != Done
    requires StepDispatch(k, here, base, content, ok).Some?
    ensures var (k', next) := StepDispatch(k, here, base, content, ok).value;
            HistoryOk(k', InRetry(k', After(next)), DoneAt(After(next), if next == Done then base + 1 else base))
  {
    var (k', next) := StepDispatch(k, here, base, content, ok).value;
    var queue := InRetry(k, here);
    match here
    case Pushing(id) =>
      PushHistory(k, queue, base);
      assert InRetry(k', Away) == queue + [base];
    case FirstPush(id) =>
      PushHistory(k, queue, base);
      assert InRetry(k', next) == queue + [base];
    case Offering => AcceptNext(k, false, base);
    case Delivering => AcceptNext(k, true, base);
    case Spawning => DropHistory(k, base);
    case _ =>
  }

  /** A step of `log` at a sink keeps that sink's invariant; finishing with the sink counts the
      event as handled. */
  lemma DispatchKeeps(k: Sink, here: Here, base: nat, content: Content, ok: bool)
    requires SinkInv(k, here, base) && here != Away && here != Done
    requires StepDispatch(k, here, base, content, ok).Some?
    ensures var (k', next) := StepDispatch(k, here, base, content, ok).value;
            SinkInv(k', After(next), if next == Done then base + 1 else base) && (next == Done ==> k'.entry != Null)
  {
    DispatchThreads(k, here, base, content, ok);
    DispatchHistory(k, here, base, content, ok);
  }

  // ---------- a step of the whole system ----------

  /** The sinks' part of `Inv`. */
  ghost predicate SinksOk(s: State) {
    forall k :: 0 <= k < |s.sinks| ==> Handled(s, k) >= 0 && SinkInv(s.sinks[k], HereOf(s.pc, k), Handled(s, k))
  }

  /** The log thread does not change what it is doing at any sink. */
  lemma SinksUnmoved(s: State, s': State)
    requires SinksOk(s) && s'.sinks == s.sinks
    requires forall k :: 0 <= k < |s.sinks| ==> HereOf(s'.pc, k) == HereOf(s.pc, k) && Handled(s', k) == Handled(s, k)
    ensures SinksOk(s')
  {
  }

  /** Only sink `j` is touched, and its own invariant is known. */
  lemma OneSinkMoved(s: State, s': State, j: nat)
    requires SinksOk(s) && j < |s.sinks| == |s'.sinks|
    requires forall k :: 0 <= k < |s.sinks| && k != j ==>
               s'.sinks[k] == s.sinks[k] && HereOf(s'.pc, k) == HereOf(s.pc, k) && Handled(s', k) == Handled(s, k)
    requires Handled(s', j) >= 0 && SinkInv(s'.sinks[j], HereOf(s'.pc, j), Handled(s', j))
    ensures SinksOk(s')
  {
  }

  /** Looking at an entry is the same as being elsewhere. */
  lemma LookingIsAway(k: Sink, base: nat)
    ensures SinkInv(k, Looking, base) <==> SinkInv(k, Away, base)
  {
  }

  /** One step at one sink, from the sink's point of view. */
  lemma DispatchAtSink(s: State, content: Content, ok: bool)
    requires Inv(s) && s.pc.Dispatch? && s.pc.sink < |s.sinks|
    requires StepDispatch(s.sinks[s.pc.sink], s.pc.here, s.local[0], content, ok).Some?
    ensures Handled(s, s.pc.sink) >= 0
    ensures var (k', next) := StepDispatch(s.sinks[s.pc.sink], s.pc.here, s.local[0], content, ok).value;
            && SinkInv(k', After(next), Handled(s, s.pc.sink) + if next == Done then 1 else 0)
            && (next == Done ==> k'.entry != Null)
  {
    var j := s.pc.sink;
    assert s.local[0] == Handled(s, j);
    DispatchKeeps(s.sinks[j], s.pc.here, Handled(s, j), content, ok);
  }

  lemma DispatchStepKeeps(s: State, content: Content, ok: bool, pick: nat)
    requires Inv(s) && s.pc.Dispatch? && StepLog(s, content, ok, pick).Some?
    ensures Inv(StepLog(s, content, ok, pick).value)
  {
    var s' := StepLog(s, content, ok, pick).value;
    var j := s.pc.sink;
    if j == |s.sinks| {
      EventDone(s);
    } else {
      DispatchAtSink(s, content, ok);
      var (k', next) := StepDispatch(s.sinks[j], s.pc.here, s.local[0], content, ok).value;
      if next == Done {
        DispatchDone(s, s', j);
      } else {
        DispatchGoesOn(s, s', j, next);
      }
    }
  }

  /** The log thread is at the next point of the loop body for sink `j`. */
  lemma DispatchGoesOn(s: State, s': State, j: nat, next: Here)
    requires Inv(s) && s.pc.Dispatch? && s.pc.sink == j < |s.sinks| && next != Done && next != Away
    requires s' == s.(sinks := s'.sinks, pc := Dispatch(j, next))
    requires |s'.sinks| == |s.sinks| && s'.sinks == s.sinks[j := s'.sinks[j]]
    requires SinkInv(s'.sinks[j], After(next), Handled(s, j))
    ensures Inv(s')
  {
    OneSinkMoved(s, s', j);
  }

  /** The current event has been to every sink. */
  lemma EventDone(s: State)
    requires Inv(s) && s.pc.Dispatch? && s.pc.sink == |s.sinks|
    ensures Inv(s.(local := s.local[1..], pc := Fetching))
  {
    var s' := s.(local := s.local[1..], pc := Fetching);
    forall k | 0 <= k < |s.sinks| ensures Handled(s', k) >= 0 && SinkInv(s'.sinks[k], HereOf(s'.pc, k), Handled(s', k)) {
      assert Handled(s', k) == Handled(s, k) && HereOf(s.pc, k) == Away;
    }
  }

  /** The log thread is done with sink `j` and looks at the next one. */
  lemma DispatchDone(s: State, s': State, j: nat)
    requires Inv(s) && s.pc.Dispatch? && s.pc.sink == j < |s.sinks|
    requires s' == s.(sinks := s'.sinks, pc := Dispatch(j + 1, Looking))
    requires |s'.sinks| == |s.sinks| && s'.sinks == s.sinks[j := s'.sinks[j]]
    requires SinkInv(s'.sinks[j], Away, Handled(s, j) + 1) && s'.sinks[j].entry != Null
    ensures Inv(s')
  {
    forall k | 0 <= k < |s.sinks| ensures Handled(s', k) >= 0 && SinkInv(s'.sinks[k], HereOf(s'.pc, k), Handled(s', k)) {
      if k == j + 1 {
        assert HereOf(s.pc, k) == Away && HereOf(s'.pc, k) == Looking && Handled(s', k) == Handled(s, k);
        LookingIsAway(s.sinks[k], Handled(s, k));
      }
    }
  }

  /** The scan counts the key it has visited. */
  lemma ScanVisits(s: State, content: Content, ok: bool, pick: nat)
    requires PcOk(s) && s.pc.Scanning? && pick in s.pc.todo && StepLog(s, content, ok, pick).Some?
    ensures PcOk(StepLog(s, content, ok, pick).value)
  {
    var todo := s.pc.todo;
    assert todo - {pick} + {pick} == todo;
  }

  lemma ScanEnds(s: State, content: Content, ok: bool, pick: nat)
    requires Inv(s) && s.pc.Scanning? && s.pc.todo == {} && StepLog(s, content, ok, pick).Some?
    ensures Inv(StepLog(s, content, ok, pick).value)
  {
    SinksUnmoved(s, StepLog(s, content, ok, pick).value);
  }

  lemma ScanStepKeeps(s: State, content: Content, ok: bool, pick: nat)
    requires Inv(s) && s.pc.Scanning? && StepLog(s, content, ok, pick).Some?
    ensures Inv(StepLog(s, content, ok, pick).value)
  {
    if s.pc.todo == {} {
      ScanEnds(s, content, ok, pick);
    } else {
      ScanVisits(s, content, ok, pick);
      ScanSinks(s, content, ok, pick);
    }
  }

  lemma ScanSinks(s: State, content: Content, ok: bool, pick: nat)
    requires SinksOk(s) && s.pc.Scanning? && pick in s.pc.todo && StepLog(s, content, ok, pick).Some?
    ensures SinksOk(StepLog(s, content, ok, pick).value)
  {
    var s' := StepLog(s, content, ok, pick).value;
    assert SinkInv(s.sinks[pick], Away, Handled(s, pick));
    assert SinkInv(s'.sinks[pick], HereOf(s'.pc, pick), Handled(s', pick));
    OneSinkMoved(s, s', pick);
  }

  lemma ScanJoinStepKeeps(s: State, content: Content, ok: bool, pick: nat)
    requires Inv(s) && s.pc.ScanJoining? && StepLog(s, content, ok, pick).Some?
    ensures Inv(StepLog(s, content, ok, pick).value)
  {
    var s' := StepLog(s, content, ok, pick).value;
    var j, id := s.pc.sink, s.pc.id;
    var base := Handled(s, j);
    assert SinkInv(s.sinks[j], Joining(id), base);
    assert s'.sinks[j].threads.Keys == {};
    assert InRetry(s'.sinks[j], Away) == [] == InRetry(s.sinks[j], Joining(id));
    OneSinkMoved(s, s', j);
  }

  lemma FetchStepKeeps(s: State, content: Content, ok: bool, pick: nat)
    requires Inv(s) && s.pc.Fetching? && StepLog(s, content, ok, pick).Some?
    ensures Inv(StepLog(s, content, ok, pick).value)
  {
    var s' := StepLog(s, content, ok, pick).value;
    forall k | 0 <= k < |s.sinks| ensures Handled(s', k) >= 0 && SinkInv(s'.sinks[k], HereOf(s'.pc, k), Handled(s', k)) {
      assert Handled(s', k) == Handled(s, k);
      LookingIsAway(s.sinks[k], Handled(s, k));
    }
  }

  lemma LogKeeps(s: State, content: Content, ok: bool, pick: nat)
    requires Inv(s) && StepLog(s, content, ok, pick).Some?
    ensures Inv(StepLog(s, content, ok, pick).value)
  {
    var s' := StepLog(s, content, ok, pick).value;
    match s.pc
    case Dispatch(_, _) => DispatchStepKeeps(s, content, ok, pick);
    case Scanning(_, _) => ScanStepKeeps(s, content, ok, pick);
    case ScanJoining(_, _, _, _) => ScanJoinStepKeeps(s, content, ok, pick);
    case Fetching => FetchStepKeeps(s, content, ok, pick);
    case _ => SinksUnmoved(s, s');
  }

  /** The log thread's program counter is about the map entries only. */
  lemma SameEntries(s: State, s': State)
    requires PcOk(s) && s' == s.(sinks := s'.sinks) && |s'.sinks| == |s.sinks|
    requires forall i :: 0 <= i < |s.sinks| ==> s'.sinks[i].entry == s.sinks[i].entry
    ensures PcOk(s')
  {
  }

  /** Steps that change one sink's record but neither its map entry nor the log thread. */
  lemma SideStepKeeps(s: State, j: nat, k: Sink)
    requires Inv(s) && j < |s.sinks| && k.entry == s.sinks[j].entry
    requires SinkInv(k, HereOf(s.pc, j), Handled(s, j))
    ensures Inv(s.(sinks := s.sinks[j := k]))
  {
    var s' := s.(sinks := s.sinks[j := k]);
    OneSinkMoved(s, s', j);
    SameEntries(s, s');
  }

  lemma QueueActionKeeps(s: State, content: Content, a: Action)
    requires Inv(s) && Step(s, content, a).Some?
    requires a.Enqueue? || a.RequestStop? || a.Notify? || a.SpuriousWakeup?
    ensures Inv(Step(s, content, a).value)
  {
    SinksUnmoved(s, Step(s, content, a).value);
  }

  lemma RetryStepKeeps(s: State, content: Content, j: nat, id: nat, ok: bool, now: Clock)
    requires Inv(s) && Step(s, content, RetryStep(j, id, ok, now)).Some?
    ensures Inv(Step(s, content, RetryStep(j, id, ok, now)).value)
  {
    RetryKeeps(s.sinks[j], HereOf(s.pc, j), Handled(s, j), id, content, ok, now);
    SideStepKeeps(s, j, StepRetry(s.sinks[j], id, content, ok, now).value);
  }

  lemma LevelStepKeeps(s: State, j: nat, level: Level)
    requires Inv(s) && j < |s.sinks|
    ensures Inv(s.(sinks := s.sinks[j := s.sinks[j].(minLevel := level)]))
  {
    var k := s.sinks[j].(minLevel := level);
    assert SinkInv(s.sinks[j], HereOf(s.pc, j), Handled(s, j));
    SideStepKeeps(s, j, k);
  }

  /** Every action of every thread keeps the invariant. */
  lemma StepKeeps(s: State, content: Content, a: Action)
    requires Inv(s) && Step(s, content, a).Some?
    ensures Inv(Step(s, content, a).value)
  {
    match a
    case LogStep(ok, pick) => LogKeeps(s, content, ok, pick);
    case RetryStep(j, id, ok, now) => RetryStepKeeps(s, content, j, id, ok, now);
    case SetMinLevel(j, level) => LevelStepKeeps(s, j, level);
    case _ => QueueActionKeeps(s, content, a);
  }

  lemma FreshInv(level: Level)
    ensures SinkInv(FreshSink(level), Away, 0)
  {
  }

  lemma InitInv(levels: seq<Level>, guarded: bool)
    ensures Inv(Init(levels, guarded))
  {
    forall k | 0 <= k < |levels| ensures SinkInv(Init(levels, guarded).sinks[k], Away, 0) { FreshInv(levels[k]); }
  }

  lemma {:induction false} ExecKeeps(s: State, content: Content, schedule: seq<Action>)
    requires Inv(s) && Exec(s, content, schedule).Some?
    ensures Inv(Exec(s, content, schedule).value)
    decreases |schedule|
  {
    if schedule != [] {
      StepKeeps(s, content, schedule[0]);
      ExecKeeps(Step(s, content, schedule[0]).value, content, schedule[1..]);
    }
  }

  lemma ReachableInv(levels: seq<Level>, content: Content, s: State)
    requires Reachable(levels, content, s)
    ensures Inv(s)
  {
    var schedule :| Exec(Init(levels, s.guarded), content, schedule) == Some(s);
    InitInv(levels, s.guarded);
    ExecKeeps(Init(levels, s.guarded), content, schedule);
  }
}
