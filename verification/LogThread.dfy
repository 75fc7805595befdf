/** log_thread.cpp in its own, imperative form: what one thread does when it is not interrupted.
    Every method is proved to be a run of the protocol, so all its invariants apply. */
module LogThreads {
  import opened Wrappers
  import opened LogEvents
  import opened Protocol
  import opened Invariant
  import opened BigSteps

  class LogThread {
    var enqueued: nat
    var events: seq<Ticket>
    var doTerminate: bool
    var unnotified: nat
    var sinks: seq<Sink>

    constructor (levels: seq<Level>)
      ensures AsState(Swapping, []) == Init(levels, false)
    {
      enqueued, events, doTerminate, unnotified := 0, [], false, 0;
      sinks := seq(|levels|, i requires 0 <= i < |levels| => FreshSink(levels[i]));
    }

    function AsState(pc: LogPc, local: seq<Ticket>): State
      reads this
    {
      State(enqueued, events, local, doTerminate, unnotified, pc, sinks, false)
    }

    /** Appending an event and notifying, wherever the log thread is. */
    method Enqueue(ghost content: Content)
      modifies this`enqueued, this`events, this`unnotified
      ensures events == old(events) + [old(enqueued)] && enqueued == old(enqueued) + 1
      ensures forall pc, local ::
                Exec(old(AsState(pc, local)), content, [Action.Enqueue, Notify]) == Some(AsState(Woken(pc), local))
    {
      events := events + [enqueued];
      enqueued := enqueued + 1;
      unnotified := unnotified + 1;
      label unlocked:
      unnotified := unnotified - 1;
      forall pc, local ensures Exec(old(AsState(pc, local)), content, [Action.Enqueue, Notify])
                               == Some(AsState(Woken(pc), local)) {
        TwoSteps(old(AsState(pc, local)), content, Action.Enqueue, old@unlocked(AsState(pc, local)), Notify);
      }
    }

    /** The stop request of `terminate()` and its notification. */
    method Terminate(ghost content: Content)
      modifies this`doTerminate, this`unnotified
      ensures doTerminate
      ensures forall pc, local ::
                Exec(old(AsState(pc, local)), content, [RequestStop, Notify]) == Some(AsState(Woken(pc), local))
    {
      doTerminate := true;
      unnotified := unnotified + 1;
      label unlocked:
      unnotified := unnotified - 1;
      forall pc, local ensures Exec(old(AsState(pc, local)), content, [RequestStop, Notify])
                               == Some(AsState(Woken(pc), local)) {
        TwoSteps(old(AsState(pc, local)), content, RequestStop, old@unlocked(AsState(pc, local)), Notify);
      }
    }

    /** One event is taken to every sink in turn.  `answer(k)` is what `do_write` of sink `k`
        returns, `create(k)` whether a retry thread could be created for it. */
    method Log(ghost local: seq<Ticket>, t: Ticket, content: Content, answer: nat -> bool, create: nat -> bool)
      requires local != [] && local[0] == t && Inv(AsState(Dispatch(0, Looking), local))
      modifies this`sinks
      ensures |sinks| == |old(sinks)|
      ensures forall k :: 0 <= k < |sinks| ==> sinks[k] == HandleEvent(old(sinks[k]), t, content, answer(k), create(k))
      ensures Leads(old(AsState(Dispatch(0, Looking), local)), content, AsState(Fetching, local[1..]))
    {
      ghost var start := AsState(Dispatch(0, Looking), local);
      InvJoinable(start);
      LeadsRefl(start, content);
      for j := 0 to |sinks|
        invariant |sinks| == |old(sinks)|
        invariant forall k :: j <= k < |sinks| ==> sinks[k] == old(sinks[k])
        invariant forall k :: 0 <= k < j ==>
                    sinks[k] == HandleEvent(old(sinks[k]), t, content, answer(k), create(k))
        invariant Leads(start, content, AsState(Dispatch(j, Looking), local))
      {
        ghost var before := AsState(Dispatch(j, Looking), local);
        var k := AtSink(sinks[j], t, content, answer(j), create(j));
        sinks := sinks[j := k];
        HandleEventRuns(before, content, j, answer(j), create(j));
        LeadsTrans(start, content, before, AsState(Dispatch(j + 1, Looking), local));
      }
      Then(start, content, AsState(Dispatch(|sinks|, Looking), local), GO);
    }

    /** The body of the loop of `log`. */
    static method AtSink(before: Sink, t: Ticket, content: Content, answer: bool, create: bool) returns (k: Sink)
      ensures k == HandleEvent(before, t, content, answer, create)
    {
      k := before;
      if k.entry == Null {
        k := k.(entry := Absent);
      } else if k.entry.At? {
        if Idle(k, k.entry.id) {
          k := k.(entry := Absent, threads := k.threads - {k.entry.id});
        } else {
          return Push(k, k.entry.id, t);
        }
      }
      if content(t).level.Below(k.minLevel) {
        k := Accept(k, t, false);
      } else if answer {
        k := Accept(k, t, true);
      } else if create {
        k := Spawn(k, t);
      } else {
        k := k.(dropped := k.dropped + {t});
      }
    }

    /** The scan of the retry map at shutdown: an active thread sets `still`, an idle one is joined
        and its entry nulled, a null entry is dereferenced. */
    method ScanRetryMap(content: Content) returns (crashed: bool, still: bool)
      requires Inv(AsState(Quitting, []))
      modifies this`sinks
      ensures crashed <==> exists k :: k in old(RetryKeys(AsState(Quitting, []))) && old(sinks[k].entry) == Null
      ensures !crashed ==> (still <==> exists k :: 0 <= k < |old(sinks)| && !GoesDirect(old(sinks[k])))
      ensures Leads(old(AsState(Scanning(RetryKeys(AsState(Quitting, [])), false), [])), content,
                    AsState(if crashed then Crashed else Scanning({}, still), []))
    {
      InvJoinable(AsState(Quitting, []));
      crashed, still := ScanKeys(content);
    }

    /** The loop of the scan. */
    method ScanKeys(content: Content) returns (crashed: bool, still: bool)
      requires forall k :: 0 <= k < |sinks| ==> Joinable(sinks[k])
      modifies this`sinks
      ensures crashed <==> exists k :: k in old(RetryKeys(AsState(Quitting, []))) && old(sinks[k].entry) == Null
      ensures !crashed ==> (still <==> exists k :: 0 <= k < |old(sinks)| && !GoesDirect(old(sinks[k])))
      ensures Leads(old(AsState(Scanning(RetryKeys(AsState(Quitting, [])), false), [])), content,
                    AsState(if crashed then Crashed else Scanning({}, still), []))
    {
      var todo := set k | 0 <= k < |sinks| && sinks[k].entry != Absent;
      ghost var keys := todo;
      still, crashed := false, false;
      ghost var start := AsState(Scanning(todo, false), []);
      LeadsRefl(start, content);
      while todo != {}
        invariant todo <= keys == RetryKeys(old(AsState(Quitting, [])))
        invariant |sinks| == |old(sinks)|
        invariant forall k :: k in todo || (0 <= k < |sinks| && k !in keys) ==> sinks[k] == old(sinks[k])
        invariant forall k :: k in keys && k !in todo ==> old(sinks[k].entry) != Null
        invariant still <==> exists k :: k in keys && k !in todo && !GoesDirect(old(sinks[k]))
        invariant Leads(start, content, AsState(Scanning(todo, still), []))
        decreases todo
      {
        var i :| i in todo;
        var active;
        crashed, active := Visit(start, content, i, todo, still);
        if crashed { return; }
        still := still || active;
        todo := todo - {i};
      }
    }

    /** One turn of the scan. */
    method Visit(ghost start: State, content: Content, i: nat, ghost todo: set<nat>, ghost still: bool)
      returns (crashed: bool, active: bool)
      requires i in todo && i < |sinks| && sinks[i].entry != Absent && Joinable(sinks[i])
      requires Leads(start, content, AsState(Scanning(todo, still), []))
      modifies this`sinks
      ensures |sinks| == |old(sinks)| && forall k :: 0 <= k < |sinks| && k != i ==> sinks[k] == old(sinks[k])
      ensures crashed <==> old(sinks[i].entry) == Null
      ensures active <==> !GoesDirect(old(sinks[i]))
      ensures Leads(start, content, AsState(if crashed then Crashed else Scanning(todo - {i}, still || active), []))
    {
      Then(start, content, AsState(Scanning(todo, still), []), LogStep(true, i));
      var k := sinks[i];
      if k.entry == Null {
        return true, false;
      }
      crashed, active := false, !Idle(k, k.entry.id);
      if !active {
        JoinRuns(AsState(ScanJoining(i, k.entry.id, todo - {i}, still), []), content, start);
        sinks := sinks[i := k.(entry := Null, threads := k.threads - {k.entry.id})];
      }
    }

    /** One pass through the loop of `do_run`: distribute the batch, then scan, return or wait.
        When it returns, nothing is left to do. */
    method Round(content: Content, answer: (Ticket, nat) -> bool, create: (Ticket, nat) -> bool) returns (pc: LogPc)
      requires Inv(AsState(Swapping, []))
      modifies this`events, this`sinks
      ensures Leads(old(AsState(Swapping, [])), content, AsState(pc, [])) && Inv(AsState(pc, []))
      ensures pc == Returned || pc == Swapping || pc == Waiting(false) || pc == Crashed
      ensures events == []
      ensures pc == Waiting(false) <==> !doTerminate
      ensures pc == Returned ==> forall k :: 0 <= k < |sinks| ==> sinks[k].threads == map[]
    {
      ghost var start := AsState(Swapping, []);
      var local := events;
      events := [];
      LeadsStep(start, content, GO);
      while local != []
        invariant events == []
        invariant Leads(start, content, AsState(Fetching, local))
      {
        Then(start, content, AsState(Fetching, local), GO);
        ghost var before := AsState(Dispatch(0, Looking), local);
        LeadsKeeps(start, content, before);
        var t := local[0];
        Log(local, t, content, (k: nat) => answer(t, k), (k: nat) => create(t, k));
        LeadsTrans(start, content, before, AsState(Fetching, local[1..]));
        local := local[1..];
      }
      Then(start, content, AsState(Fetching, []), GO);
      LeadsKeeps(start, content, AsState(Quitting, []));
      pc := FinishRound(start, content);
      LeadsKeeps(start, content, AsState(pc, []));
      if pc == Returned {
        AllJoined(AsState(pc, []));
      }
    }

    /** The second half of the loop body, after the batch. */
    method FinishRound(ghost start: State, content: Content) returns (pc: LogPc)
      requires events == [] && Leads(start, content, AsState(Quitting, [])) && Inv(AsState(Quitting, []))
      modifies this`sinks
      ensures Leads(start, content, AsState(pc, []))
      ensures pc == Returned || pc == Swapping || pc == Waiting(false) || pc == Crashed
      ensures pc == Waiting(false) <==> !doTerminate
    {
      Then(start, content, AsState(Quitting, []), GO);
      if !doTerminate {
        return Waiting(false);
      }
      ghost var scan := AsState(Scanning(RetryKeys(AsState(Quitting, [])), false), []);
      var crashed, still := ScanRetryMap(content);
      LeadsTrans(start, content, scan, AsState(if crashed then Crashed else Scanning({}, still), []));
      if crashed {
        return Crashed;
      }
      Then(start, content, AsState(Scanning({}, still), []), GO);
      if still {
        return Swapping;
      }
      Then(start, content, AsState(Confirming, []), GO);
      pc := Returned;
    }
  }

  /** What a notification does to the log thread. */
  function Woken(pc: LogPc): LogPc {
    if pc.Waiting? then Waiting(true) else pc
  }

  lemma TwoSteps(s: State, content: Content, a: Action, mid: State, b: Action)
    requires Step(s, content, a) == Some(mid)
    ensures Exec(s, content, [a, b]) == Step(mid, content, b)
  {
    assert [a, b][1..] == [b] && [b][1..] == [];
    match Step(mid, content, b)
    case None =>
    case Some(end) => assert Exec(end, content, []) == Some(end);
  }

  /** In every reachable state, joining an idle retry thread ends. */
  lemma InvJoinable(s: State)
    requires Inv(s)
    ensures forall k :: 0 <= k < |s.sinks| ==> Joinable(s.sinks[k])
  {
    forall k | 0 <= k < |s.sinks| ensures Joinable(s.sinks[k]) {
      assert ThreadsOk(s.sinks[k], HereOf(s.pc, k));
    }
  }

  /** The join of an idle thread in the scan. */
  lemma JoinRuns(s: State, content: Content, start: State)
    requires s.pc.ScanJoining? && s.pc.sink < |s.sinks| && Leads(start, content, s)
    requires var k := s.sinks[s.pc.sink]; k.entry == At(s.pc.id) && Idle(k, s.pc.id) && Joinable(k)
    ensures var k := s.sinks[s.pc.sink];
            Leads(start, content,
                  SetSink(s, s.pc.sink, k.(entry := Null, threads := k.threads - {s.pc.id}),
                          Scanning(s.pc.todo, s.pc.still)))
  {
    var j, id := s.pc.sink, s.pc.id;
    var k := s.sinks[j];
    IdleExits(s, content, j, id);
    var k' := WithThread(k, id, Retry([], Exited));
    var s' := s.(sinks := s.sinks[j := k']);
    LeadsTrans(start, content, s, s');
    Then(start, content, s', GO);
    assert k'.threads - {id} == k.threads - {id};
    var k2 := k.(entry := Null, threads := k.threads - {id});
    assert s'.sinks[j := k2] == s.sinks[j := k2];
  }

  lemma LeadsKeeps(s: State, content: Content, s': State)
    requires Inv(s) && Leads(s, content, s')
    ensures Inv(s')
  {
    var schedule :| Exec(s, content, schedule) == Some(s');
    ExecKeeps(s, content, schedule);
  }

  lemma AllJoined(s: State)
    requires Inv(s) && s.pc == Returned
    ensures forall k :: 0 <= k < |s.sinks| ==> s.sinks[k].threads == map[]
  {
    forall k | 0 <= k < |s.sinks| ensures s.sinks[k].threads == map[] {
      assert ThreadsOk(s.sinks[k], Away);
      assert s.sinks[k].threads.Keys == {};
    }
  }
}
