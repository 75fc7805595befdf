/** retry_thread.cpp and the level filter of output_stream.cpp in their own, imperative form. */
module RetryThreads {
  import opened Wrappers
  import opened LogEvents
  import opened Protocol
  import Invariant

  /** A sink with its level filter; `answer(n)` is what the n-th call of `do_write` returns. */
  class OutputStream {
    const answer: nat -> bool
    var minLevel: Level
    var calls: nat
    var accepted: seq<Ticket>
    var delivered: seq<Ticket>

    constructor (answer: nat -> bool)
      ensures this.answer == answer && minLevel == Finest && calls == 0 && accepted == [] && delivered == []
    {
      this.answer := answer;
      minLevel, calls, accepted, delivered := Finest, 0, [], [];
    }

    /** What the protocol records of the stream. */
    predicate SeenAs(k: Sink)
      reads this
    {
      k.minLevel == minLevel && k.accepted == accepted && k.delivered == delivered
    }

    /** The protocol's step, in every state that sees the stream as it is: the filter of later writes
        changes, what was written does not. */
    method SetMinLogLevel(level: Level, ghost content: Content)
      modifies this`minLevel
      ensures minLevel == level
      ensures forall s: State, j: nat :: j < |s.sinks| && old(SeenAs(s.sinks[j])) ==>
                Step(s, content, SetMinLevel(j, level)).Some?
                && SeenAs(Step(s, content, SetMinLevel(j, level)).value.sinks[j])
    {
      minLevel := level;
    }

    /** An event below the filter is accepted without being delivered; any other is handed to
        `do_write`, whose answer is passed on.  The `i`-th level is below the `j`-th exactly if it
        is listed earlier. */
    method Write(t: Ticket, content: Content) returns (ok: bool)
      modifies this`calls, this`accepted, this`delivered
      ensures var order := [Finest, Finer, Fine, Config, Info, Warning, Severe];
              forall i, j :: 0 <= i < 7 && 0 <= j < 7 && order[i] == content(t).level && order[j] == minLevel ==>
                if i < j then ok && calls == old(calls) && delivered == old(delivered)
                else ok == answer(old(calls)) && calls == old(calls) + 1
                     && delivered == old(delivered) + (if ok then [t] else [])
      ensures content(t).level.Below(minLevel) ==> ok && calls == old(calls) && delivered == old(delivered)
      ensures !content(t).level.Below(minLevel) ==>
                && ok == answer(old(calls)) && calls == old(calls) + 1
                && delivered == old(delivered) + (if ok then [t] else [])
      ensures accepted == old(accepted) + (if ok then [t] else [])
    {
      forall i: nat, j: nat | i < 7 && j < 7
        ensures var order := [Finest, Finer, Fine, Config, Info, Warning, Severe]; order[i].Below(order[j]) <==> i < j
      {
        LevelOrder(i, j);
      }
      if content(t).level.Below(minLevel) {
        accepted := accepted + [t];
        return true;
      }
      ok := answer(calls);
      calls := calls + 1;
      if ok {
        accepted := accepted + [t];
        delivered := delivered + [t];
      }
    }
  }

  /** Some steps of retry thread `id`, with the rest of the program at rest, lead from `k` to `k'`. */
  ghost predicate RetryLeads(k: Sink, id: nat, content: Content, k': Sink) {
    exists choices :: RunRetry(k, id, content, choices) == Some(k')
  }

  function RunRetry(k: Sink, id: nat, content: Content, choices: seq<(bool, Clock)>): Option<Sink>
    decreases |choices|
  {
    if choices == [] then Some(k) else
    match StepRetry(k, id, content, choices[0].0, choices[0].1)
    case None => None
    case Some(next) => RunRetry(next, id, content, choices[1..])
  }

  lemma RetryRefl(k: Sink, id: nat, content: Content)
    ensures RetryLeads(k, id, content, k)
  {
    assert RunRetry(k, id, content, []) == Some(k);
  }

  lemma RetryThen(k: Sink, id: nat, content: Content, mid: Sink, ok: bool, now: Clock)
    requires RetryLeads(k, id, content, mid) && StepRetry(mid, id, content, ok, now).Some?
    ensures RetryLeads(k, id, content, StepRetry(mid, id, content, ok, now).value)
  {
    var next := StepRetry(mid, id, content, ok, now).value;
    assert RunRetry(mid, id, content, [(ok, now)]) == Some(next) by {
      assert [(ok, now)][1..] == [];
      assert RunRetry(next, id, content, []) == Some(next);
    }
    RetryLeadsTrans(k, id, content, mid, next);
  }

  /** Such steps are steps of the whole system, in any of its states. */
  lemma {:induction false} RetryLeadsLifts(s: State, content: Content, j: nat, id: nat, choices: seq<(bool, Clock)>, k': Sink)
    requires j < |s.sinks| && RunRetry(s.sinks[j], id, content, choices) == Some(k')
    ensures Leads(s, content, s.(sinks := s.sinks[j := k']))
    decreases |choices|
  {
    if choices == [] {
      assert s.sinks[j := k'] == s.sinks;
      LeadsRefl(s, content);
    } else {
      var k1 := StepRetry(s.sinks[j], id, content, choices[0].0, choices[0].1).value;
      var s1 := s.(sinks := s.sinks[j := k1]);
      LeadsStep(s, content, RetryStep(j, id, choices[0].0, choices[0].1));
      RetryLeadsLifts(s1, content, j, id, choices[1..], k');
      assert s1.sinks[j := k'] == s.sinks[j := k'];
      LeadsTrans(s, content, s1, s.(sinks := s.sinks[j := k']));
    }
  }

  /** The record of a sink with retry thread `id` in this state. */
  function WithRetry(k: Sink, id: nat, queue: seq<Ticket>, pc: RetryPc): Sink {
    WithThread(k, id, Retry(queue, pc))
  }

  class RetryThread {
    const id: nat
    const stream: OutputStream
    var eventQueue: seq<Ticket>
    var expiredEvents: set<Ticket>

    constructor (id: nat, stream: OutputStream)
      ensures this.id == id && this.stream == stream && eventQueue == [] && expiredEvents == {}
    {
      this.id, this.stream, eventQueue, expiredEvents := id, stream, [], {};
    }

    /** The sink's record in the protocol; `rest` is whatever else is known of the sink: its map
        entry, its spawned and other threads, what earlier threads let expire and what was dropped. */
    function AsSink(rest: Sink, pc: RetryPc): Sink
      reads this, stream
    {
      WithRetry(rest, id, eventQueue, pc).(minLevel := stream.minLevel, accepted := stream.accepted,
                                           delivered := stream.delivered, expired := rest.expired + expiredEvents)
    }

    method Active() returns (active: bool)
      ensures active <==> eventQueue != []
    {
      active := eventQueue != [];
    }

    method Enqueue(t: Ticket)
      modifies this`eventQueue
      ensures eventQueue == old(eventQueue) + [t]
    {
      eventQueue := eventQueue + [t];
    }

    /** The writing loop: the queue loses exactly the prefix whose writes succeeded, in order, and
        the loop stops at the first refused write or when nothing is left. */
    method WritePass(content: Content, ghost rest: Sink) returns (ghost written: nat)
      modifies this`eventQueue, stream`calls, stream`accepted, stream`delivered
      ensures written <= |old(eventQueue)|
      ensures eventQueue == old(eventQueue)[written..]
      ensures stream.accepted == old(stream.accepted) + old(eventQueue)[..written]
      ensures eventQueue != [] ==> !content(eventQueue[0]).level.Below(stream.minLevel)
                                   && stream.calls > 0 && !stream.answer(stream.calls - 1)
      ensures RetryLeads(old(AsSink(rest, Peeking)), id, content, AsSink(rest, Expiring))
    {
      written := 0;
      ghost var start := AsSink(rest, Peeking);
      RetryRefl(start, id, content);
      while true
        invariant written <= |old(eventQueue)| && eventQueue == old(eventQueue)[written..]
        invariant stream.accepted == old(stream.accepted) + old(eventQueue)[..written]
        invariant RetryLeads(start, id, content, AsSink(rest, Peeking))
        decreases |eventQueue|
      {
        if eventQueue == [] {
          EmptyStep(start, AsSink(rest, Peeking), id, content, AsSink(rest, Expiring));
          break;
        }
        var ok := WriteHead(content, rest, start);
        if !ok {
          break;
        }
        written := written + 1;
      }
    }

    /** One turn of the loop: the head of the queue is written and, if that succeeds, popped. */
    method WriteHead(content: Content, ghost rest: Sink, ghost start: Sink) returns (ok: bool)
      requires eventQueue != [] && RetryLeads(start, id, content, AsSink(rest, Peeking))
      modifies this`eventQueue, stream`calls, stream`accepted, stream`delivered
      ensures ok ==> eventQueue == old(eventQueue)[1..] && stream.accepted == old(stream.accepted) + [old(eventQueue)[0]]
      ensures !ok ==> eventQueue == old(eventQueue) && stream.accepted == old(stream.accepted)
                      && !content(eventQueue[0]).level.Below(stream.minLevel)
                      && stream.calls > 0 && !stream.answer(stream.calls - 1)
      ensures RetryLeads(start, id, content, AsSink(rest, if ok then Peeking else Expiring))
    {
      var firstEvent := eventQueue[0];
      ghost var before := AsSink(rest, Peeking);
      ok := stream.Write(firstEvent, content);
      WriteSteps(start, before, id, firstEvent, content, ok, AsSink(rest, if ok then Popping(firstEvent) else Expiring));
      if ok {
        ghost var popping := AsSink(rest, Popping(firstEvent));
        eventQueue := eventQueue[1..];
        PopStep(start, popping, id, content, AsSink(rest, Peeking));
      }
    }

    /** The expiry scan erases exactly the events that are too old for their level. */
    method Expire(content: Content, now: Clock, ghost rest: Sink) returns (expired: nat)
      modifies this`eventQueue, this`expiredEvents
      ensures eventQueue == Kept(old(eventQueue), content, now)
      ensures forall t :: t in eventQueue && content(t).level != Severe ==> now - content(t).time < 36_001_000_000_000
      ensures forall t :: t in old(eventQueue) && content(t).level == Info ==>
                (t in eventQueue <==> now - content(t).time < 3_601_000_000_000)
      ensures forall t :: t in old(eventQueue)
                          && (content(t).level == Severe || now - content(t).time < 901_000_000_000) ==>
                t in eventQueue
      ensures expired == |old(eventQueue)| - |eventQueue|
      ensures RetryLeads(old(AsSink(rest, Expiring)), id, content, AsSink(rest, Deciding))
    {
      ghost var before := AsSink(rest, Expiring);
      ghost var queue, gone := eventQueue, expiredEvents;
      expired := Scan(content, now);
      assert rest.expired + expiredEvents == rest.expired + gone + Stale(queue, content, now);
      ExpireStep(before, AsSink(rest, Deciding), id, content, now);
      Invariant.KeptProperties(queue, content, now);
      forall t { ExpiredIff(content(t), now); }
    }

    /** The loop of the scan. */
    method Scan(content: Content, now: Clock) returns (expired: nat)
      modifies this`eventQueue, this`expiredEvents
      ensures eventQueue == Kept(old(eventQueue), content, now)
      ensures expiredEvents == old(expiredEvents) + Stale(old(eventQueue), content, now)
      ensures expired == |old(eventQueue)| - |eventQueue|
    {
      ghost var queue, gone := eventQueue, expiredEvents;
      var i := 0;
      expired := 0;
      while i != |eventQueue|
        invariant i <= |eventQueue| && expired == |queue| - |eventQueue|
        invariant Kept(queue, content, now) == eventQueue[..i] + Kept(eventQueue[i..], content, now)
        invariant expiredEvents + Stale(eventQueue[i..], content, now) == gone + Stale(queue, content, now)
        decreases |eventQueue| - i
      {
        ScanTurn(eventQueue, i, content, now);
        if Expired(content(eventQueue[i]), now) {
          expiredEvents := expiredEvents + {eventQueue[i]};
          eventQueue := eventQueue[..i] + eventQueue[i + 1..];
          expired := expired + 1;
        } else {
          i := i + 1;
        }
      }
      assert eventQueue[..i] == eventQueue && eventQueue[i..] == [];
      assert expiredEvents == expiredEvents + Stale([], content, now);
    }

    /** One round of `run` after a sleep: write, expire, and report whether the thread exits. */
    method Round(content: Content, now: Clock, ghost rest: Sink) returns (exits: bool)
      modifies this`eventQueue, this`expiredEvents, stream`calls, stream`accepted, stream`delivered
      ensures exists written: nat :: written <= |old(eventQueue)|
                && eventQueue == Kept(old(eventQueue)[written..], content, now)
                && stream.accepted == old(stream.accepted) + old(eventQueue)[..written]
      ensures exits <==> eventQueue == []
      ensures RetryLeads(old(AsSink(rest, Asleep)), id, content, AsSink(rest, if exits then Exited else Asleep))
    {
      ghost var start := AsSink(rest, Asleep);
      RetryRefl(start, id, content);
      SwitchStep(start, start, id, content, AsSink(rest, Peeking));
      ghost var written := WritePass(content, rest);
      RetryLeadsTrans(start, id, content, old(AsSink(rest, Peeking)), AsSink(rest, Expiring));
      ghost var expiring := AsSink(rest, Expiring);
      var expired := Expire(content, now, rest);
      RetryLeadsTrans(start, id, content, expiring, AsSink(rest, Deciding));
      var active := Active();
      exits := !active;
      SwitchStep(start, AsSink(rest, Deciding), id, content, AsSink(rest, if exits then Exited else Asleep));
    }
  }

  lemma RetryLeadsTrans(k: Sink, id: nat, content: Content, mid: Sink, end: Sink)
    requires RetryLeads(k, id, content, mid) && RetryLeads(mid, id, content, end)
    ensures RetryLeads(k, id, content, end)
  {
    var a :| RunRetry(k, id, content, a) == Some(mid);
    var b :| RunRetry(mid, id, content, b) == Some(end);
    RunRetryConcat(k, id, content, a, b);
  }

  lemma {:induction false} RunRetryConcat(k: Sink, id: nat, content: Content, a: seq<(bool, Clock)>, b: seq<(bool, Clock)>)
    requires RunRetry(k, id, content, a).Some?
    ensures RunRetry(k, id, content, a + b) == RunRetry(RunRetry(k, id, content, a).value, id, content, b)
    decreases |a|
  {
    if a == [] {
      assert a + b == b;
    } else {
      RunRetryConcat(StepRetry(k, id, content, a[0].0, a[0].1).value, id, content, a[1..], b);
      assert (a + b)[1..] == a[1..] + b;
    }
  }

  /** One turn of the scan at `i`. */
  lemma ScanTurn(queue: seq<Ticket>, i: nat, content: Content, now: Clock)
    requires i < |queue|
    ensures var q := if Expired(content(queue[i]), now) then queue[..i] + queue[i + 1..] else queue;
            var n := if Expired(content(queue[i]), now) then i else i + 1;
            && n <= |q|
            && q[..n] + Kept(q[n..], content, now) == queue[..i] + Kept(queue[i..], content, now)
            && (if Expired(content(queue[i]), now) then {queue[i]} else {}) + Stale(q[n..], content, now)
               == Stale(queue[i..], content, now)
  {
    var tail := queue[i..];
    StaleHead(tail, content, now);
    assert tail[1..] == queue[i + 1..];
    if Expired(content(queue[i]), now) {
      var q := queue[..i] + queue[i + 1..];
      assert q[..i] == queue[..i] && q[i..] == queue[i + 1..];
    } else {
      assert queue[..i + 1] == queue[..i] + [queue[i]];
    }
  }

  lemma StaleHead(queue: seq<Ticket>, content: Content, now: Clock)
    requires queue != []
    ensures Stale(queue, content, now)
            == (if Expired(content(queue[0]), now) then {queue[0]} else {}) + Stale(queue[1..], content, now)
  {
    assert queue == [queue[0]] + queue[1..];
  }

  /** Two records that differ in this thread only. */
  predicate Changed(before: Sink, id: nat, r: Retry, after: Sink) {
    after == before.(threads := after.threads) && after.threads == before.threads[id := r]
  }

  /** Waking up, and deciding whether to go on. */
  lemma SwitchStep(start: Sink, before: Sink, id: nat, content: Content, after: Sink)
    requires id in before.threads && RetryLeads(start, id, content, before)
    requires var r := before.threads[id];
             && (r.pc == Asleep || r.pc == Deciding)
             && Changed(before, id, r.(pc := if r.pc == Asleep then Peeking
                                             else if r.queue == [] then Exited else Asleep), after)
    ensures RetryLeads(start, id, content, after)
  {
    RetryThen(start, id, content, before, true, 0);
  }

  lemma EmptyStep(start: Sink, before: Sink, id: nat, content: Content, after: Sink)
    requires id in before.threads && before.threads[id] == Retry([], Peeking) && RetryLeads(start, id, content, before)
    requires Changed(before, id, Retry([], Expiring), after)
    ensures RetryLeads(start, id, content, after)
  {
    RetryThen(start, id, content, before, true, 0);
  }

  lemma PopStep(start: Sink, before: Sink, id: nat, content: Content, after: Sink)
    requires id in before.threads && RetryLeads(start, id, content, before)
    requires var r := before.threads[id];
             r.pc.Popping? && r.queue != [] && Changed(before, id, Retry(r.queue[1..], Peeking), after)
    ensures RetryLeads(start, id, content, after)
  {
    RetryThen(start, id, content, before, true, 0);
  }

  /** The whole scan is one step. */
  lemma ExpireStep(before: Sink, after: Sink, id: nat, content: Content, now: Clock)
    requires id in before.threads && before.threads[id].pc == Expiring
    requires var queue := before.threads[id].queue;
             && after.threads == before.threads[id := Retry(Kept(queue, content, now), Deciding)]
             && after == before.(threads := after.threads, expired := before.expired + Stale(queue, content, now))
    ensures RetryLeads(before, id, content, after)
  {
    RetryRefl(before, id, content);
    RetryThen(before, id, content, before, true, now);
  }

  /** The write of the head of the queue, as steps. */
  lemma WriteSteps(start: Sink, before: Sink, id: nat, t: Ticket, content: Content, ok: bool, after: Sink)
    requires id in before.threads && before.threads[id].pc == Peeking
    requires before.threads[id].queue != [] && before.threads[id].queue[0] == t
    requires RetryLeads(start, id, content, before)
    requires var filtered := content(t).level.Below(before.minLevel);
             && (filtered ==> ok)
             && Changed(if ok then Accept(before, t, !filtered) else before, id,
                        before.threads[id].(pc := if ok then Popping(t) else Expiring), after)
    ensures RetryLeads(start, id, content, after)
  {
    var r := before.threads[id];
    RetryThen(start, id, content, before, true, 0);
    var s1 := WithThread(before, id, r.(pc := Filtering(t)));
    RetryThen(start, id, content, s1, true, 0);
    if content(t).level.Below(before.minLevel) {
      assert StepRetry(s1, id, content, true, 0).value == after;
    } else {
      var s2 := WithThread(s1, id, r.(pc := Sending(t)));
      RetryThen(start, id, content, s2, ok, 0);
      assert StepRetry(s2, id, content, ok, 0).value == after;
    }
  }
}
