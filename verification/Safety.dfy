/** What holds in every reachable state of the delivery protocol, and when `do_run` returns. */
module Safety {
  import opened Wrappers
  import opened LogEvents
  import opened Protocol
  import opened Invariant

  // ---------- where an event is, seen from one sink ----------

  /** Some unjoined retry thread of the sink still owes the event. */
  ghost predicate OwedByRetry(k: Sink, t: Ticket) {
    exists id :: id in k.threads && t in Owed(k.threads[id])
  }

  /** The log thread is working on the event at this very sink. */
  predicate InHand(s: State, sink: nat, t: Ticket) {
    s.pc.Dispatch? && s.pc.sink == sink && !s.pc.here.Emplacing? && s.local != [] && s.local[0] == t
  }

  /** The part of the batch that has not reached the sink. */
  function Batch(s: State, sink: nat): seq<Ticket> {
    if s.pc.Dispatch? && sink <= s.pc.sink && s.local != [] then s.local[1..] else s.local
  }

  function Count(b: bool): nat {
    if b then 1 else 0
  }

  /** In how many of the seven places the event is. */
  ghost function Places(s: State, sink: nat, t: Ticket): nat
    requires sink < |s.sinks|
  {
    var k := s.sinks[sink];
    Count(t in k.accepted) + Count(t in k.expired) + Count(t in k.dropped) + Count(OwedByRetry(k, t))
    + Count(InHand(s, sink, t)) + Count(t in Batch(s, sink)) + Count(t in s.events)
  }

  lemma OwedIsInRetry(k: Sink, here: Here, base: nat, t: Ticket)
    requires SinkInv(k, here, base)
    ensures OwedByRetry(k, t) <==> t in InRetry(k, here)
  {
    if t in InRetry(k, here) {
      assert LiveThread(k, here).value in k.threads;
    }
  }

  lemma QueueRange(s: State, t: Ticket)
    requires QueuesOk(s)
    ensures t in s.events <==> s.enqueued - |s.events| <= t < s.enqueued
    ensures t in s.local <==> s.enqueued - |s.events| - |s.local| <= t < s.enqueued - |s.events|
    ensures s.local != [] ==>
              (t in s.local[1..] <==> s.enqueued - |s.events| - |s.local| < t < s.enqueued - |s.events|)
  {
    if s.enqueued - |s.events| <= t < s.enqueued {
      assert s.events[t - (s.enqueued - |s.events|)] == t;
    }
    var base := s.enqueued - |s.events| - |s.local|;
    if base <= t < base + |s.local| {
      assert s.local[t - base] == t;
      if t > base { assert s.local[1..][t - base - 1] == t; }
    }
  }

  /** Conservation: in every interleaving each enqueued event is, for each sink, in exactly one
      place, and nothing that was not enqueued is anywhere. */
  lemma Conservation(levels: seq<Level>, content: Content, s: State, sink: nat, t: Ticket)
    requires Reachable(levels, content, s) && sink < |s.sinks|
    ensures Places(s, sink, t) == (if t < s.enqueued then 1 else 0)
  {
    ReachableInv(levels, content, s);
    OwedIsInRetry(s.sinks[sink], HereOf(s.pc, sink), Handled(s, sink), t);
    QueueRange(s, t);
    var done := DoneAt(HereOf(s.pc, sink), Handled(s, sink));
    assert OnePlace(s.sinks[sink], InRetry(s.sinks[sink], HereOf(s.pc, sink)), done);
  }

  /** Everything a sink has accepted, then everything it may still accept. */
  function Pipeline(s: State, sink: nat): seq<Ticket>
    requires sink < |s.sinks|
  {
    var k := s.sinks[sink];
    k.accepted + InRetry(k, HereOf(s.pc, sink))
    + (if s.pc.Dispatch? && s.pc.sink == sink && !s.pc.here.Emplacing? && s.local != [] then [s.local[0]] else [])
    + Batch(s, sink) + s.events
  }

  lemma AppendRange(a: seq<Ticket>, b: seq<Ticket>, lo: nat)
    requires Increasing(a) && (forall t :: t in a ==> t < lo)
    requires forall i :: 0 <= i < |b| ==> b[i] == lo + i
    ensures Increasing(a + b) && forall t :: t in a + b ==> t < lo + |b|
  {
    IncreasingConcat(a, b);
  }

  /** Per-sink FIFO: accepted writes, retry queue, event in hand, batch and queue are, read one
      after the other, in enqueue order; no event occurs twice. */
  lemma Fifo(levels: seq<Level>, content: Content, s: State, sink: nat)
    requires Reachable(levels, content, s) && sink < |s.sinks|
    ensures Increasing(Pipeline(s, sink)) && Increasing(s.sinks[sink].delivered)
  {
    ReachableInv(levels, content, s);
    var k, here := s.sinks[sink], HereOf(s.pc, sink);
    var done := DoneAt(here, Handled(s, sink));
    var past := k.accepted + InRetry(k, here);
    assert OnePlace(k, InRetry(k, here), done);
    var hand := if s.pc.Dispatch? && s.pc.sink == sink && !s.pc.here.Emplacing? && s.local != [] then [s.local[0]] else [];
    AppendRange(past, hand, done);
    AppendRange(past + hand, Batch(s, sink), done + |hand|);
    AppendRange(past + hand + Batch(s, sink), s.events, s.enqueued - |s.events|);
  }

  // ---------- exclusion ----------

  /** Retry thread `id` is inside `write` of its sink. */
  predicate RetryInWrite(k: Sink, id: nat) {
    id in k.threads && (k.threads[id].pc.Filtering? || k.threads[id].pc.Sending?)
  }

  /** The log thread is inside `write` of the sink. */
  predicate LogInWrite(s: State, sink: nat) {
    s.pc.Dispatch? && s.pc.sink == sink && (s.pc.here == Offering || s.pc.here == Delivering)
  }

  /** One writer per sink: no two threads are ever inside `write` of the same sink, and while the
      log thread writes directly the sink has no unjoined retry thread at all. */
  lemma SingleWriter(levels: seq<Level>, content: Content, s: State, sink: nat, id: nat, other: nat)
    requires Reachable(levels, content, s) && sink < |s.sinks|
    ensures LogInWrite(s, sink) ==> s.sinks[sink].threads == map[]
    ensures !(LogInWrite(s, sink) && RetryInWrite(s.sinks[sink], id))
    ensures RetryInWrite(s.sinks[sink], id) && RetryInWrite(s.sinks[sink], other) ==> id == other
  {
    ReachableInv(levels, content, s);
    assert ThreadsOk(s.sinks[sink], HereOf(s.pc, sink));
  }

  /** At most one unjoined retry thread per sink; outside its construction the map points to it;
      the key is absent whenever `emplace` runs; the element erased after a write is the one
      written. */
  lemma RetryOwnership(levels: seq<Level>, content: Content, s: State, sink: nat, id: nat)
    requires Reachable(levels, content, s) && sink < |s.sinks| && id in s.sinks[sink].threads
    ensures s.sinks[sink].threads.Keys == {id}
    ensures s.pc == Dispatch(sink, FirstPush(id)) || s.pc == Dispatch(sink, Emplacing(id))
            || s.sinks[sink].entry == At(id)
    ensures s.pc == Dispatch(sink, Emplacing(id)) ==> s.sinks[sink].entry == Absent
    ensures var r := s.sinks[sink].threads[id];
            r.pc.Popping? ==> r.queue != [] && r.queue[0] == r.pc.held && r.pc.held in s.sinks[sink].accepted
  {
    ReachableInv(levels, content, s);
    assert ThreadsOk(s.sinks[sink], HereOf(s.pc, sink));
  }

  // ---------- wakeups and shutdown ----------

  /** No lost wakeup: a blocked log thread with work to do is about to be notified. */
  lemma NoLostWakeup(levels: seq<Level>, content: Content, s: State)
    requires Reachable(levels, content, s)
    requires s.pc == Waiting(false) && (s.events != [] || s.terminate)
    ensures s.unnotified > 0
  {
    ReachableInv(levels, content, s);
  }

  /** The three final outcomes. */
  predicate Settled(k: Sink, t: Ticket) {
    t in k.accepted || t in k.expired || t in k.dropped
  }

  /** Shutdown drains: the step that makes `do_run` return finds termination requested, the queue
      empty, every retry thread joined and every event enqueued so far settled at every sink. */
  lemma ShutdownDrains(levels: seq<Level>, content: Content, s: State, a: Action)
    requires Reachable(levels, content, s) && s.pc != Returned
    requires Step(s, content, a).Some? && Step(s, content, a).value.pc == Returned
    ensures var s' := Step(s, content, a).value;
            && s'.terminate && s'.events == [] && s'.local == []
            && (forall k :: 0 <= k < |s'.sinks| ==> s'.sinks[k].threads == map[] && !s'.sinks[k].entry.At?)
            && (forall k, t: Ticket :: 0 <= k < |s'.sinks| && t < s'.enqueued ==> Settled(s'.sinks[k], t))
  {
    ReachableInv(levels, content, s);
    StepKeeps(s, content, a);
    ReturnedIsDrained(Step(s, content, a).value) by { OnlyConfirmingReturns(s, content, a); }
  }

  lemma OnlyConfirmingReturns(s: State, content: Content, a: Action)
    requires s.pc != Returned && Inv(s) && Step(s, content, a).Some? && Step(s, content, a).value.pc == Returned
    ensures var s' := Step(s, content, a).value; s'.events == [] && s'.local == []
  {
  }

  lemma ReturnedIsDrained(s: State)
    requires Inv(s) && s.pc == Returned && s.events == [] && s.local == []
    ensures s.terminate
    ensures forall k :: 0 <= k < |s.sinks| ==> s.sinks[k].threads == map[] && !s.sinks[k].entry.At?
    ensures forall k, t: Ticket :: 0 <= k < |s.sinks| && t < s.enqueued ==> Settled(s.sinks[k], t)
  {
    forall k | 0 <= k < |s.sinks|
      ensures s.sinks[k].threads == map[] && forall t: Ticket :: t < s.enqueued ==> Settled(s.sinks[k], t)
    {
      assert SinkInv(s.sinks[k], Away, s.enqueued);
      assert LiveThread(s.sinks[k], Away) == None;
      assert s.sinks[k].threads.Keys == {};
      assert OnePlace(s.sinks[k], [], s.enqueued);
    }
  }

  // ---------- reasons ----------

  /** What can become of an event at a sink: `do_write` took it, or it was lost in one of three ways. */
  datatype Fate = Delivered | ByAge | ByFilter | ByThread

  ghost predicate Met(k: Sink, fate: Fate, t: Ticket) {
    match fate
    case Delivered => t in k.delivered
    case ByAge => t in k.expired
    case ByFilter => t in k.accepted && t !in k.delivered
    case ByThread => t in k.dropped
  }

  /** Retry thread `id` is at this point. */
  predicate RetryAt(k: Sink, id: nat, pc: RetryPc) {
    id in k.threads && k.threads[id].pc == pc
  }

  /** The log thread is at this point with event `t`. */
  predicate LogAt(s: State, j: nat, here: Here, t: Ticket) {
    s.pc == Dispatch(j, here) && s.local != [] && s.local[0] == t
  }

  /** Action `a` decides about event `t` at sink `j`: `do_write` returns true for it; an expiry scan finds
      it queued and too old at the time it has read; a writer finds it below the level the filter has at
      that moment; or the thread to retry it cannot be created. */
  predicate Decides(s: State, content: Content, a: Action, fate: Fate, j: nat, t: Ticket) {
    && j < |s.sinks|
    && var k := s.sinks[j];
       match fate
       case Delivered =>
         || (a.LogStep? && a.ok && LogAt(s, j, Delivering, t))
         || (a.RetryStep? && a.ok && a.sink == j && RetryAt(k, a.id, Sending(t)))
       case ByAge =>
         && a.RetryStep? && a.sink == j && RetryAt(k, a.id, Expiring)
         && t in k.threads[a.id].queue && Expired(content(t), a.now)
       case ByFilter =>
         && content(t).level.Below(k.minLevel)
         && ((a.LogStep? && LogAt(s, j, Offering, t)) || (a.RetryStep? && a.sink == j && RetryAt(k, a.id, Filtering(t))))
       case ByThread => a.LogStep? && !a.ok && LogAt(s, j, Spawning, t)
  }

  /** The fate happens in the run, at action `i`. */
  ghost predicate DecidesIn(start: State, content: Content, run: seq<Action>, i: nat, fate: Fate, j: nat, t: Ticket) {
    && i < |run| && Exec(start, content, run[..i]).Some?
    && Decides(Exec(start, content, run[..i]).value, content, run[i], fate, j, t)
  }

  lemma AcceptDecides(k: Sink, x: Ticket, sent: bool, fate: Fate, t: Ticket)
    requires x !in k.accepted && (forall d :: d in k.delivered ==> d in k.accepted)
    ensures Met(Accept(k, x, sent), fate, t) <==> Met(k, fate, t) || (t == x && fate == if sent then Delivered else ByFilter)
  {
    assert t in k.accepted + [x] <==> t in k.accepted || t == x;
    assert t in k.delivered + [x] <==> t in k.delivered || t == x;
  }

  lemma DispatchDecides(k: Sink, here: Here, base: nat, content: Content, ok: bool, fate: Fate, t: Ticket)
    requires SinkInv(k, here, base) && here != Away && here != Done && StepDispatch(k, here, base, content, ok).Some?
    ensures Met(StepDispatch(k, here, base, content, ok).value.0, fate, t)
            <==> Met(k, fate, t)
                 || (t == base && ((fate == ByFilter && here == Offering && content(t).level.Below(k.minLevel))
                                   || (fate == Delivered && here == Delivering && ok)
                                   || (fate == ByThread && here == Spawning && !ok)))
  {
    if here == Offering || here == Delivering {
      NextInOrder(k, InRetry(k, here), base);
      AcceptDecides(k, base, here == Delivering, fate, t);
    }
  }

  lemma RetryDecides(k: Sink, here: Here, base: nat, id: nat, content: Content, ok: bool, now: Clock, fate: Fate, t: Ticket)
    requires SinkInv(k, here, base) && StepRetry(k, id, content, ok, now).Some?
    ensures Met(StepRetry(k, id, content, ok, now).value, fate, t)
            <==> Met(k, fate, t)
                 || (fate == Delivered && RetryAt(k, id, Sending(t)) && ok)
                 || (fate == ByAge && RetryAt(k, id, Expiring) && t in k.threads[id].queue && Expired(content(t), now))
                 || (fate == ByFilter && RetryAt(k, id, Filtering(t)) && content(t).level.Below(k.minLevel))
  {
    var r := k.threads[id];
    assert k.threads.Keys == {id} && InRetry(k, here) == Owed(r);
    match r.pc
    case Filtering(x) =>
      assert x in r.queue;
      AcceptDecides(k, x, false, fate, t);
    case Sending(x) =>
      assert x in r.queue;
      AcceptDecides(k, x, true, fate, t);
    case _ =>
  }

  lemma LogStepDecides(s: State, content: Content, ok: bool, pick: nat, fate: Fate, j: nat, t: Ticket)
    requires Inv(s) && StepLog(s, content, ok, pick).Some? && j < |s.sinks|
    ensures var s' := StepLog(s, content, ok, pick).value;
            |s'.sinks| == |s.sinks|
            && (Met(s'.sinks[j], fate, t)
                <==> Met(s.sinks[j], fate, t) || Decides(s, content, LogStep(ok, pick), fate, j, t))
  {
    if s.pc.Dispatch? && s.pc.sink == j {
      assert s.local[0] == Handled(s, j);
      DispatchDecides(s.sinks[j], s.pc.here, Handled(s, j), content, ok, fate, t);
    } else {
      LogElsewhere(s, content, ok, pick, fate, j, t);
    }
  }

  lemma LogElsewhere(s: State, content: Content, ok: bool, pick: nat, fate: Fate, j: nat, t: Ticket)
    requires StepLog(s, content, ok, pick).Some? && j < |s.sinks| && !(s.pc.Dispatch? && s.pc.sink == j)
    ensures var s' := StepLog(s, content, ok, pick).value;
            |s'.sinks| == |s.sinks| && (Met(s'.sinks[j], fate, t) <==> Met(s.sinks[j], fate, t))
            && !Decides(s, content, LogStep(ok, pick), fate, j, t)
  {
  }

  /** What is decided grows by exactly what a step decides. */
  lemma StepDecides(s: State, content: Content, a: Action, fate: Fate, j: nat, t: Ticket)
    requires Inv(s) && Step(s, content, a).Some? && j < |s.sinks|
    ensures var s' := Step(s, content, a).value;
            |s'.sinks| == |s.sinks|
            && (Met(s'.sinks[j], fate, t) <==> Met(s.sinks[j], fate, t) || Decides(s, content, a, fate, j, t))
  {
    match a
    case LogStep(ok, pick) => LogStepDecides(s, content, ok, pick, fate, j, t);
    case RetryStep(i, id, ok, now) =>
      if i == j { RetryDecides(s.sinks[j], HereOf(s.pc, j), Handled(s, j), id, content, ok, now, fate, t); }
    case _ =>
  }

  lemma EarlierFate(start: State, content: Content, run: seq<Action>, n: nat, i: nat, fate: Fate, j: nat, t: Ticket)
    requires i < n <= |run|
    ensures DecidesIn(start, content, run[..n], i, fate, j, t) <==> DecidesIn(start, content, run, i, fate, j, t)
  {
    assert run[..n][..i] == run[..i];
  }

  /** The decisions of a run are those before its last action, and what that decides. */
  lemma FatesSnoc(start: State, content: Content, run: seq<Action>, n: nat, fate: Fate, j: nat, t: Ticket)
    requires n == |run| - 1 && Exec(start, content, run[..n]).Some?
    ensures (exists i :: DecidesIn(start, content, run, i, fate, j, t))
            <==> (exists i :: DecidesIn(start, content, run[..n], i, fate, j, t))
                 || Decides(Exec(start, content, run[..n]).value, content, run[n], fate, j, t)
  {
    forall i: nat | i < n
      ensures DecidesIn(start, content, run[..n], i, fate, j, t) <==> DecidesIn(start, content, run, i, fate, j, t)
    {
      EarlierFate(start, content, run, n, i, fate, j, t);
    }
    if Decides(Exec(start, content, run[..n]).value, content, run[n], fate, j, t) {
      assert DecidesIn(start, content, run, n, fate, j, t);
    }
    if i: nat :| DecidesIn(start, content, run, i, fate, j, t) && i < n {
      assert DecidesIn(start, content, run[..n], i, fate, j, t);
    }
    if i: nat :| DecidesIn(start, content, run[..n], i, fate, j, t) {
      assert DecidesIn(start, content, run, i, fate, j, t);
    }
  }

  lemma {:induction false} FatesOfRun(start: State, content: Content, run: seq<Action>, fate: Fate, j: nat, t: Ticket)
    requires Inv(start) && j < |start.sinks| && Exec(start, content, run).Some? && !Met(start.sinks[j], fate, t)
    ensures var end := Exec(start, content, run).value;
            && Inv(end) && |end.sinks| == |start.sinks|
            && (Met(end.sinks[j], fate, t) <==> exists i :: DecidesIn(start, content, run, i, fate, j, t))
    decreases |run|
  {
    if run != [] {
      var n := |run| - 1;
      var before, a := run[..n], run[n];
      PrefixRuns(start, content, run, n);
      FatesOfRun(start, content, before, fate, j, t);
      var s := Exec(start, content, before).value;
      StepKeeps(s, content, a);
      StepDecides(s, content, a, fate, j, t);
      FatesSnoc(start, content, run, n, fate, j, t);
    }
  }

  /** A run without its last action. */
  lemma PrefixRuns(start: State, content: Content, run: seq<Action>, n: nat)
    requires n == |run| - 1 && Exec(start, content, run).Some?
    ensures Exec(start, content, run[..n]).Some?
    ensures Exec(start, content, run) == Step(Exec(start, content, run[..n]).value, content, run[n])
  {
    assert run == run[..n] + [run[n]];
    PrefixEnabled(start, content, run[..n], [run[n]]);
    ExecConcat(start, content, run[..n], [run[n]]);
    OneAction(Exec(start, content, run[..n]).value, content, run[n]);
  }

  lemma {:induction false} PrefixEnabled(start: State, content: Content, a: seq<Action>, b: seq<Action>)
    requires Exec(start, content, a + b).Some?
    ensures Exec(start, content, a).Some?
    decreases |a|
  {
    if a != [] {
      assert (a + b)[0] == a[0] && (a + b)[1..] == a[1..] + b;
      PrefixEnabled(Step(start, content, a[0]).value, content, a[1..], b);
    }
  }

  lemma OneAction(s: State, content: Content, a: Action)
    ensures Exec(s, content, [a]) == Step(s, content, a)
  {
    assert [a][1..] == [];
    match Step(s, content, a)
    case None =>
    case Some(next) => assert Exec(next, content, []) == Some(next);
  }

  /** After every run: an event was delivered to a sink exactly if some `do_write` of the run returned true
      for it; it has expired exactly if some expiry scan of the run found it queued there and too old; it
      was withheld exactly if some write of the run found it below the filter of that moment; and it was
      dropped exactly if the thread to retry it could not be created. */
  lemma EveryFateHasAReason(levels: seq<Level>, guarded: bool, content: Content, run: seq<Action>, fate: Fate, j: nat,
                            t: Ticket)
    requires Exec(Init(levels, guarded), content, run).Some? && j < |levels|
    ensures |Exec(Init(levels, guarded), content, run).value.sinks| == |levels|
    ensures Met(Exec(Init(levels, guarded), content, run).value.sinks[j], fate, t)
            <==> exists i :: DecidesIn(Init(levels, guarded), content, run, i, fate, j, t)
  {
    InitInv(levels, guarded);
    FatesOfRun(Init(levels, guarded), content, run, fate, j, t);
  }

  /** The level a run has last set for sink `j`, or the one it started with. */
  function LastFilter(levels: seq<Level>, run: seq<Action>, j: nat): Level
    requires j < |levels|
  {
    if run == [] then levels[j]
    else
      var n := |run| - 1;
      if run[n].SetMinLevel? && run[n].sink == j then run[n].level else LastFilter(levels, run[..n], j)
  }

  lemma OnlySettingFilters(s: State, content: Content, a: Action, j: nat)
    requires Step(s, content, a).Some? && j < |s.sinks|
    ensures var s' := Step(s, content, a).value;
            && |s'.sinks| == |s.sinks|
            && s'.sinks[j].minLevel == if a.SetMinLevel? && a.sink == j then a.level else s.sinks[j].minLevel
  {
  }

  /** The filter in force is the one last set, whatever else has happened. */
  lemma {:induction false} FilterIsLastSet(levels: seq<Level>, guarded: bool, content: Content, run: seq<Action>, j: nat)
    requires Exec(Init(levels, guarded), content, run).Some? && j < |levels|
    ensures |Exec(Init(levels, guarded), content, run).value.sinks| == |levels|
    ensures Exec(Init(levels, guarded), content, run).value.sinks[j].minLevel == LastFilter(levels, run, j)
    decreases |run|
  {
    if run != [] {
      var n := |run| - 1;
      PrefixRuns(Init(levels, guarded), content, run, n);
      FilterIsLastSet(levels, guarded, content, run[..n], j);
      OnlySettingFilters(Exec(Init(levels, guarded), content, run[..n]).value, content, run[n], j);
    }
  }

  /** An event is withheld at a sink only by a write before which a level was last set for that sink that
      is listed later than the event's own. */
  lemma WithheldWasBelow(levels: seq<Level>, guarded: bool, content: Content, run: seq<Action>, j: nat, t: Ticket)
      returns (i: nat, own: nat, filter: nat)
    requires Exec(Init(levels, guarded), content, run).Some? && j < |levels|
    requires j < |Exec(Init(levels, guarded), content, run).value.sinks|
    requires Met(Exec(Init(levels, guarded), content, run).value.sinks[j], ByFilter, t)
    ensures i < |run| && own < filter < 7
    ensures var order := [Finest, Finer, Fine, Config, Info, Warning, Severe];
            order[own] == content(t).level && order[filter] == LastFilter(levels, run[..i], j)
  {
    EveryFateHasAReason(levels, guarded, content, run, ByFilter, j, t);
    i :| DecidesIn(Init(levels, guarded), content, run, i, ByFilter, j, t);
    FilterIsLastSet(levels, guarded, content, run[..i], j);
    own, filter := content(t).level.Rank(), LastFilter(levels, run[..i], j).Rank();
    LevelOrder(own, filter);
  }

  /** An event has expired at a sink only by a scan of a retry thread of that sink that read a clock at
      least this much later than the event's time. */
  lemma ExpiredWasOld(levels: seq<Level>, guarded: bool, content: Content, run: seq<Action>, j: nat, t: Ticket)
      returns (i: nat)
    requires Exec(Init(levels, guarded), content, run).Some? && j < |levels|
    requires j < |Exec(Init(levels, guarded), content, run).value.sinks|
    requires Met(Exec(Init(levels, guarded), content, run).value.sinks[j], ByAge, t)
    ensures i < |run| && run[i].RetryStep? && run[i].sink == j
    ensures var age := run[i].now - content(t).time;
            match content(t).level
            case Finest => age >= 901_000_000_000
            case Finer => age >= 901_000_000_000
            case Fine => age >= 1_801_000_000_000
            case Config => age >= 1_801_000_000_000
            case Info => age >= 3_601_000_000_000
            case Warning => age >= 36_001_000_000_000
            case Severe => false
  {
    EveryFateHasAReason(levels, guarded, content, run, ByAge, j, t);
    i :| DecidesIn(Init(levels, guarded), content, run, i, ByAge, j, t);
    ExpiredIff(content(t), run[i].now);
  }

  /** Severe events are never lost by age or filter. */
  lemma SevereIsKept(levels: seq<Level>, guarded: bool, content: Content, run: seq<Action>, j: nat, t: Ticket)
    requires Exec(Init(levels, guarded), content, run).Some? && j < |levels| && content(t).level == Severe
    ensures |Exec(Init(levels, guarded), content, run).value.sinks| == |levels|
    ensures var k := Exec(Init(levels, guarded), content, run).value.sinks[j];
            !Met(k, ByAge, t) && !Met(k, ByFilter, t)
  {
    var start := Init(levels, guarded);
    EveryFateHasAReason(levels, guarded, content, run, ByAge, j, t);
    EveryFateHasAReason(levels, guarded, content, run, ByFilter, j, t);
    forall i: nat ensures !DecidesIn(start, content, run, i, ByAge, j, t) && !DecidesIn(start, content, run, i, ByFilter, j, t) {
      if i < |run| && run[i].RetryStep? { SevereNeverExpires(content(t), run[i].now); }
    }
  }

  /** Whatever the faults: when `do_run` returns, every severe event enqueued so far went through
      `do_write` of every sink exactly once, unless a thread could not be created for it. */
  lemma SevereEventsAreDelivered(levels: seq<Level>, content: Content, s: State, a: Action, sink: nat, t: Ticket)
    requires Reachable(levels, content, s) && s.pc != Returned
    requires Step(s, content, a).Some? && Step(s, content, a).value.pc == Returned
    requires sink < |s.sinks| && t < s.enqueued && content(t).level == Severe
    ensures sink < |Step(s, content, a).value.sinks|
    ensures var k := Step(s, content, a).value.sinks[sink];
            t in k.dropped || multiset(k.delivered)[t] == 1
  {
    var s' := Step(s, content, a).value;
    ShutdownDrains(levels, content, s, a);
    StepShape(s, content, a);
    var past := ReachedBy(levels, content, s, a);
    SinkCounts(levels, content, s);
    SevereIsKept(levels, s.guarded, content, past, sink, t);
    Fifo(levels, content, s', sink);
    assert Settled(s'.sinks[sink], t);
    IncreasingOnce(s'.sinks[sink].delivered, t);
  }

  lemma SinkCounts(levels: seq<Level>, content: Content, s: State)
    requires Reachable(levels, content, s)
    ensures |s.sinks| == |levels|
  {
    var schedule :| Exec(Init(levels, s.guarded), content, schedule) == Some(s);
    ExecShape(Init(levels, s.guarded), content, schedule);
  }

  lemma ReachedBy(levels: seq<Level>, content: Content, s: State, a: Action) returns (past: seq<Action>)
    requires Reachable(levels, content, s) && Step(s, content, a).Some?
    ensures Exec(Init(levels, s.guarded), content, past) == Step(s, content, a)
  {
    var schedule :| Exec(Init(levels, s.guarded), content, schedule) == Some(s);
    assert [a][1..] == [] && Exec(s, content, [a]) == Step(s, content, a);
    ExecConcat(Init(levels, s.guarded), content, schedule, [a]);
    past := schedule + [a];
  }

  lemma {:induction false} IncreasingOnce(s: seq<Ticket>, t: Ticket)
    requires Increasing(s)
    ensures multiset(s)[t] == if t in s then 1 else 0
  {
    if s != [] {
      var head, rest := s[0], s[1..];
      assert s == [head] + rest;
      IncreasingConcat([head], rest);
      IncreasingOnce(rest, t);
    }
  }
}
