/** Uninterrupted executions of the loop bodies, as runs of the protocol. */
module BigSteps {
  import opened LogEvents
  import opened Protocol

  const GO := LogStep(true, 0)
  const FAIL := LogStep(false, 0)

  function SetSink(s: State, j: nat, k: Sink, pc: LogPc): State
    requires j < |s.sinks|
  {
    s.(sinks := s.sinks[j := k], pc := pc)
  }

  // ---------- one event at one sink (log_thread.cpp:83-113) ----------

  /** The event goes to the sink itself, not to its retry queue. */
  predicate GoesDirect(k: Sink) {
    match k.entry
    case At(id) => Idle(k, id)
    case _ => true
  }

  /** Delete what an earlier failure left behind. */
  function BackToNormal(k: Sink): Sink {
    match k.entry
    case At(id) => k.(entry := Absent, threads := k.threads - {id})
    case _ => k.(entry := Absent)
  }

  function Spawn(k: Sink, t: Ticket): Sink {
    WithThread(k, k.spawned, Retry([t], Asleep)).(spawned := k.spawned + 1, entry := At(k.spawned))
  }

  function WriteDirect(k: Sink, t: Ticket, content: Content, ok: bool, created: bool): Sink {
    if content(t).level.Below(k.minLevel) then Accept(k, t, false)
    else if ok then Accept(k, t, true)
    else if created then Spawn(k, t)
    else k.(dropped := k.dropped + {t})
  }

  function HandleEvent(k: Sink, t: Ticket, content: Content, ok: bool, created: bool): Sink {
    if GoesDirect(k) then WriteDirect(BackToNormal(k), t, content, ok, created)
    else if k.entry.At? then Push(k, k.entry.id, t)
    else k
  }

  /** Where the event is afterwards.  A sink whose retry thread still has events gets it behind them;
      otherwise a filter listed later than its level withholds it, or `do_write` takes it, or it is the
      first event of a new retry thread, or it is dropped. */
  lemma HandleEventOutcome(k: Sink, t: Ticket, content: Content, ok: bool, created: bool, own: nat, filter: nat)
    requires k.entry.At? ==> k.entry.id in k.threads
    requires own < 7 && filter < 7
    requires var order := [Finest, Finer, Fine, Config, Info, Warning, Severe];
             order[own] == content(t).level && order[filter] == k.minLevel
    ensures var k' := HandleEvent(k, t, content, ok, created);
            if k.entry.At? && k.threads[k.entry.id].queue != [] then
              && k' == k.(threads := k'.threads)
              && k'.threads == k.threads[k.entry.id := Retry(k.threads[k.entry.id].queue + [t], k.threads[k.entry.id].pc)]
            else if own < filter then
              !k'.entry.At? && k'.accepted == k.accepted + [t] && k'.delivered == k.delivered && k'.dropped == k.dropped
            else if ok then
              && !k'.entry.At? && k'.accepted == k.accepted + [t] && k'.delivered == k.delivered + [t]
              && k'.dropped == k.dropped
            else if created then
              && k'.entry == At(k.spawned) && k'.threads[k.spawned] == Retry([t], Asleep)
              && k'.accepted == k.accepted && k'.delivered == k.delivered && k'.dropped == k.dropped
            else
              && !k'.entry.At? && k'.accepted == k.accepted && k'.delivered == k.delivered
              && k'.dropped == k.dropped + {t}
  {
    LevelOrder(own, filter);
  }

  /** An idle retry thread named by the map is not between reading the head of its queue and popping
      it, so it comes to its end whatever happens. */
  predicate Joinable(k: Sink) {
    k.entry.At? && Idle(k, k.entry.id) ==>
      match k.threads[k.entry.id].pc
      case Filtering(_) => false
      case Sending(_) => false
      case Popping(_) => false
      case _ => true
  }

  function StepsToExit(pc: RetryPc): nat {
    match pc
    case Asleep => 4
    case Peeking => 3
    case Expiring => 2
    case Deciding => 1
    case _ => 0
  }

  /** While the log thread waits in `join`, the idle thread runs to its end. */
  lemma IdleExits(s: State, content: Content, j: nat, id: nat)
    requires j < |s.sinks| && s.sinks[j].entry == At(id) && Idle(s.sinks[j], id) && Joinable(s.sinks[j])
    ensures Leads(s, content, s.(sinks := s.sinks[j := WithThread(s.sinks[j], id, Retry([], Exited))]))
    decreases StepsToExit(s.sinks[j].threads[id].pc)
  {
    var k := s.sinks[j];
    var end := s.(sinks := s.sinks[j := WithThread(k, id, Retry([], Exited))]);
    if k.threads[id].pc == Exited {
      assert WithThread(k, id, Retry([], Exited)).threads == k.threads;
      assert end.sinks == s.sinks;
      LeadsRefl(s, content);
    } else {
      var next := Step(s, content, RetryStep(j, id, true, 0)).value;
      assert k.expired + Stale([], content, 0) == k.expired;
      LeadsStep(s, content, RetryStep(j, id, true, 0));
      IdleExits(next, content, j, id);
      assert WithThread(next.sinks[j], id, Retry([], Exited)) == WithThread(k, id, Retry([], Exited));
      assert next.sinks[j := WithThread(k, id, Retry([], Exited))] == end.sinks;
      LeadsTrans(s, content, next, end);
    }
  }

  lemma NormalRuns(s: State, content: Content, j: nat)
    requires j < |s.sinks| && s.pc == Dispatch(j, Looking) && s.local != []
    requires GoesDirect(s.sinks[j]) && Joinable(s.sinks[j])
    ensures Leads(s, content, SetSink(s, j, BackToNormal(s.sinks[j]), Dispatch(j, Offering)))
  {
    var k := s.sinks[j];
    assert s.sinks[j := k] == s.sinks;
    LeadsStep(s, content, GO);
    if k.entry.At? {
      var id := k.entry.id;
      var s1 := s.(pc := Dispatch(j, Joining(id)));
      IdleExits(s1, content, j, id);
      var k2 := WithThread(k, id, Retry([], Exited));
      var s2 := s1.(sinks := s.sinks[j := k2]);
      LeadsTrans(s, content, s1, s2);
      Then(s, content, s2, GO);
      assert k2.threads - {id} == k.threads - {id};
      assert s2.sinks[j := BackToNormal(k)] == s.sinks[j := BackToNormal(k)];
    } else if k.entry == Absent {
      assert BackToNormal(k) == k;
    }
  }

  /** A sink with a new retry thread whose queue is `queue`. */
  function Spawned(k: Sink, queue: seq<Ticket>): Sink {
    WithThread(k, k.spawned, Retry(queue, Asleep)).(spawned := k.spawned + 1)
  }

  lemma FirstPushRuns(s: State, content: Content, j: nat, k: Sink)
    requires j < |s.sinks| && s.local != [] && s.pc == Dispatch(j, FirstPush(k.spawned)) && s.sinks[j] == Spawned(k, [])
    ensures Leads(s, content, SetSink(s, j, Spawned(k, [s.local[0]]), Dispatch(j, Emplacing(k.spawned))))
  {
    var t := s.local[0];
    assert [] + [t] == [t];
    assert Push(s.sinks[j], k.spawned, t).threads == Spawned(k, [t]).threads;
    LeadsStep(s, content, GO);
  }

  lemma EmplacingRuns(s: State, content: Content, j: nat, k: Sink, t: Ticket)
    requires j < |s.sinks| && s.local != [] && s.pc == Dispatch(j, Emplacing(k.spawned))
    requires s.sinks[j] == Spawned(k, [t]) && k.entry == Absent
    ensures Leads(s, content, SetSink(s, j, Spawn(k, t), Dispatch(j + 1, Looking)))
  {
    LeadsStep(s, content, GO);
  }

  lemma SpawnRuns(s: State, content: Content, j: nat)
    requires j < |s.sinks| && s.pc == Dispatch(j, Spawning) && s.local != [] && s.sinks[j].entry == Absent
    ensures Leads(s, content, SetSink(s, j, Spawn(s.sinks[j], s.local[0]), Dispatch(j + 1, Looking)))
  {
    var k, t := s.sinks[j], s.local[0];
    var id := k.spawned;
    LeadsStep(s, content, GO);
    var s1 := SetSink(s, j, Spawned(k, []), Dispatch(j, FirstPush(id)));
    FirstPushRuns(s1, content, j, k);
    var s2 := SetSink(s1, j, Spawned(k, [t]), Dispatch(j, Emplacing(id)));
    LeadsTrans(s, content, s1, s2);
    EmplacingRuns(s2, content, j, k, t);
    var s3 := SetSink(s2, j, Spawn(k, t), Dispatch(j + 1, Looking));
    LeadsTrans(s, content, s2, s3);
    assert s3.sinks == s.sinks[j := Spawn(k, t)];
  }

  lemma WriteRuns(s: State, content: Content, j: nat, ok: bool, created: bool)
    requires j < |s.sinks| && s.pc == Dispatch(j, Offering) && s.local != [] && s.sinks[j].entry == Absent
    ensures Leads(s, content,
                  SetSink(s, j, WriteDirect(s.sinks[j], s.local[0], content, ok, created), Dispatch(j + 1, Looking)))
  {
    var k, t := s.sinks[j], s.local[0];
    assert s.sinks[j := k] == s.sinks;
    LeadsStep(s, content, GO);
    if !content(t).level.Below(k.minLevel) {
      var s1 := s.(pc := Dispatch(j, Delivering));
      Then(s, content, s1, LogStep(ok, 0));
      if !ok {
        var s2 := s.(pc := Dispatch(j, Spawning));
        if created {
          SpawnRuns(s2, content, j);
          LeadsTrans(s, content, s2, SetSink(s, j, Spawn(k, t), Dispatch(j + 1, Looking)));
        } else {
          Then(s, content, s2, FAIL);
        }
      }
    }
  }

  /** The whole loop body, not interrupted, is a run of the protocol. */
  lemma HandleEventRuns(s: State, content: Content, j: nat, ok: bool, created: bool)
    requires j < |s.sinks| && s.pc == Dispatch(j, Looking) && s.local != [] && Joinable(s.sinks[j])
    ensures Leads(s, content,
                  SetSink(s, j, HandleEvent(s.sinks[j], s.local[0], content, ok, created), Dispatch(j + 1, Looking)))
  {
    var k, t := s.sinks[j], s.local[0];
    var k' := HandleEvent(k, t, content, ok, created);
    if GoesDirect(k) {
      NormalRuns(s, content, j);
      var s1 := SetSink(s, j, BackToNormal(k), Dispatch(j, Offering));
      WriteRuns(s1, content, j, ok, created);
      assert SetSink(s1, j, k', Dispatch(j + 1, Looking)) == SetSink(s, j, k', Dispatch(j + 1, Looking));
      LeadsTrans(s, content, s1, SetSink(s, j, k', Dispatch(j + 1, Looking)));
    } else {
      assert s.sinks[j := k] == s.sinks;
      LeadsStep(s, content, GO);
      Then(s, content, s.(pc := Dispatch(j, Pushing(k.entry.id))), GO);
    }
  }
}
