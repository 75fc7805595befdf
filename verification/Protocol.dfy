/**
 The delivery protocol of log_thread.cpp and retry_thread.cpp as a step transition system.

 One action is one critical section, one call into a sink, or one blocking call of the
 original, so every interleaving of the producers, the log thread and the retry threads is a
 sequence of actions.  An event instance is named by its ticket, its position in the order in
 which producers appended to `m_events`; `content` gives the record behind a ticket.
 */
module Protocol {
  import opened Wrappers
  import opened LogEvents

  type Ticket = nat
  type Content = Ticket -> LogEvent

  /** The value `m_retry_map` holds for a sink. */
  datatype Entry = Absent | Null | At(id: nat)

  /** Program counter of `retry_thread::run`; the argument is the event `first_event` refers to. */
  datatype RetryPc =
    | Asleep
    | Peeking
    | Filtering(held: Ticket)
    | Sending(held: Ticket)
    | Popping(held: Ticket)
    | Expiring
    | Deciding
    | Exited

  datatype Retry = Retry(queue: seq<Ticket>, pc: RetryPc)

  /** One sink: its level filter, its map entry, its unjoined retry threads, and its history. */
  datatype Sink = Sink(
    minLevel: Level,
    entry: Entry,
    threads: map<nat, Retry>,
    spawned: nat,
    accepted: seq<Ticket>,
    delivered: seq<Ticket>,
    expired: set<Ticket>,
    dropped: set<Ticket>)

  /** Where the log thread is inside the loop body of `log`, seen from one sink. */
  datatype Here =
    | Away
    | Looking
    | Joining(id: nat)
    | Pushing(id: nat)
    | Offering
    | Delivering
    | Spawning
    | FirstPush(id: nat)
    | Emplacing(id: nat)
    | Done

  /** Program counter of `log_thread::do_run`. */
  datatype LogPc =
    | Swapping
    | Fetching
    | Dispatch(sink: nat, here: Here)
    | Quitting
    | Waiting(woken: bool)
    | Scanning(todo: set<nat>, still: bool)
    | ScanJoining(sink: nat, id: nat, todo: set<nat>, still: bool)
    | Confirming
    | Returned
    | Crashed

  /** `guarded` never changes: false is the code as it is; true is the code with a scan that skips
      null entries, as the loop of `log` does (log_thread.cpp:86). */
  datatype State = State(
    enqueued: nat,
    events: seq<Ticket>,
    local: seq<Ticket>,
    terminate: bool,
    unnotified: nat,
    pc: LogPc,
    sinks: seq<Sink>,
    guarded: bool)

  datatype Action =
    | Enqueue
    | RequestStop
    | Notify
    | SpuriousWakeup
    | SetMinLevel(sink: nat, level: Level)
    | LogStep(ok: bool, pick: nat)
    | RetryStep(sink: nat, id: nat, ok: bool, now: Clock)

  function FreshSink(level: Level): Sink {
    Sink(level, Absent, map[], 0, [], [], {}, {})
  }

  function Init(levels: seq<Level>, guarded: bool): State {
    State(0, [], [], false, 0, Swapping, seq(|levels|, i requires 0 <= i < |levels| => FreshSink(levels[i])), guarded)
  }

  // ---------- retry_thread ----------

  /** What the expiry scan keeps. */
  function Kept(queue: seq<Ticket>, content: Content, now: Clock): seq<Ticket> {
    if queue == [] then []
    else if Expired(content(queue[0]), now) then Kept(queue[1..], content, now)
    else [queue[0]] + Kept(queue[1..], content, now)
  }

  /** What the expiry scan erases. */
  function Stale(queue: seq<Ticket>, content: Content, now: Clock): set<Ticket> {
    set t | t in queue && Expired(content(t), now)
  }

  function Accept(k: Sink, t: Ticket, sent: bool): Sink {
    k.(accepted := k.accepted + [t], delivered := if sent then k.delivered + [t] else k.delivered)
  }

  function WithThread(k: Sink, id: nat, r: Retry): Sink {
    k.(threads := k.threads[id := r])
  }

  /** One step of retry thread `id`; `ok` is what `do_write` returns. */
  function StepRetry(k: Sink, id: nat, content: Content, ok: bool, now: Clock): Option<Sink> {
    if id !in k.threads then None else
    var r := k.threads[id];
    match r.pc
    case Asleep => Some(WithThread(k, id, r.(pc := Peeking)))
    case Peeking =>
      Some(WithThread(k, id, r.(pc := if r.queue == [] then Expiring else Filtering(r.queue[0]))))
    case Filtering(t) =>
      if content(t).level.Below(k.minLevel) then
        Some(WithThread(Accept(k, t, false), id, r.(pc := Popping(t))))
      else
        Some(WithThread(k, id, r.(pc := Sending(t))))
    case Sending(t) =>
      if ok then Some(WithThread(Accept(k, t, true), id, r.(pc := Popping(t))))
      else Some(WithThread(k, id, r.(pc := Expiring)))
    case Popping(t) =>
      if r.queue == [] then None
      else Some(WithThread(k, id, Retry(r.queue[1..], Peeking)))
    case Expiring =>
      Some(WithThread(k.(expired := k.expired + Stale(r.queue, content, now)), id,
                      Retry(Kept(r.queue, content, now), Deciding)))
    case Deciding => Some(WithThread(k, id, r.(pc := if r.queue == [] then Exited else Asleep)))
    case Exited => None
  }

  // ---------- log_thread::log ----------

  /** `!active()` */
  predicate Idle(k: Sink, id: nat) {
    id in k.threads && k.threads[id].queue == []
  }

  predicate HasExited(k: Sink, id: nat) {
    id in k.threads && k.threads[id].pc == Exited
  }

  function Push(k: Sink, id: nat, t: Ticket): Sink {
    if id in k.threads then WithThread(k, id, k.threads[id].(queue := k.threads[id].queue + [t])) else k
  }

  /** One step of the loop body of `log` for one sink and event `t`.  `ok` is the result of
      `do_write`, or whether the thread could be created. */
  function StepDispatch(k: Sink, here: Here, t: Ticket, content: Content, ok: bool): Option<(Sink, Here)> {
    match here
    case Looking =>
      (match k.entry
       case Absent => Some((k, Offering))
       case Null => Some((k.(entry := Absent), Offering))
       case At(id) => Some((k, if Idle(k, id) then Joining(id) else Pushing(id))))
    case Joining(id) =>
      if HasExited(k, id) then Some((k.(entry := Absent, threads := k.threads - {id}), Offering)) else None
    case Pushing(id) => Some((Push(k, id, t), Done))
    case Offering =>
      if content(t).level.Below(k.minLevel) then Some((Accept(k, t, false), Done)) else Some((k, Delivering))
    case Delivering => if ok then Some((Accept(k, t, true), Done)) else Some((k, Spawning))
    case Spawning =>
      if ok then
        Some((WithThread(k, k.spawned, Retry([], Asleep)).(spawned := k.spawned + 1), FirstPush(k.spawned)))
      else
        Some((k.(dropped := k.dropped + {t}), Done))
    case FirstPush(id) => Some((Push(k, id, t), Emplacing(id)))
    case Emplacing(id) => Some((if k.entry == Absent then k.(entry := At(id)) else k, Done))
    case _ => None
  }

  // ---------- log_thread::do_run ----------

  function RetryKeys(s: State): set<nat> {
    set k | 0 <= k < |s.sinks| && s.sinks[k].entry != Absent
  }

  function StepLog(s: State, content: Content, ok: bool, pick: nat): Option<State> {
    match s.pc
    case Swapping => Some(s.(local := s.events, events := [], pc := Fetching))
    case Fetching => Some(s.(pc := if s.local == [] then Quitting else Dispatch(0, Looking)))
    case Dispatch(j, here) =>
      if s.local == [] then None
      else if j >= |s.sinks| then Some(s.(local := s.local[1..], pc := Fetching))
      else
        (match StepDispatch(s.sinks[j], here, s.local[0], content, ok)
         case None => None
         case Some((k, next)) =>
           Some(s.(sinks := s.sinks[j := k],
                   pc := if next == Done then Dispatch(j + 1, Looking) else Dispatch(j, next))))
    case Quitting =>
      Some(s.(pc := if s.events != [] then Swapping
                    else if s.terminate then Scanning(RetryKeys(s), false)
                    else Waiting(false)))
    case Waiting(woken) => if woken then Some(s.(pc := Swapping)) else None
    case Scanning(todo, still) =>
      if todo == {} then Some(s.(pc := if still then Swapping else Confirming))
      else if pick !in todo || pick >= |s.sinks| then None
      else
        (match s.sinks[pick].entry
         case Absent => None
         case Null => Some(s.(pc := if s.guarded then Scanning(todo - {pick}, still) else Crashed))
         case At(id) =>
           Some(s.(pc := if Idle(s.sinks[pick], id) then ScanJoining(pick, id, todo - {pick}, still)
                         else Scanning(todo - {pick}, true))))
    case ScanJoining(j, id, todo, still) =>
      if j < |s.sinks| && HasExited(s.sinks[j], id) then
        var k := s.sinks[j];
        Some(s.(sinks := s.sinks[j := k.(entry := Null, threads := k.threads - {id})], pc := Scanning(todo, still)))
      else None
    case Confirming => Some(s.(pc := if s.events == [] then Returned else Swapping))
    case Returned => None
    case Crashed => None
  }

  /** The effect of one action; `None` when the action is not enabled. */
  function Step(s: State, content: Content, a: Action): Option<State> {
    match a
    case Enqueue =>
      Some(s.(enqueued := s.enqueued + 1, events := s.events + [s.enqueued], unnotified := s.unnotified + 1))
    case RequestStop => Some(s.(terminate := true, unnotified := s.unnotified + 1))
    case Notify =>
      if s.unnotified == 0 then None
      else Some(s.(unnotified := s.unnotified - 1, pc := if s.pc.Waiting? then Waiting(true) else s.pc))
    case SpuriousWakeup => if s.pc.Waiting? then Some(s.(pc := Waiting(true))) else None
    case SetMinLevel(j, level) =>
      if j < |s.sinks| then Some(s.(sinks := s.sinks[j := s.sinks[j].(minLevel := level)])) else None
    case LogStep(ok, pick) => StepLog(s, content, ok, pick)
    case RetryStep(j, id, ok, now) =>
      if j >= |s.sinks| then None else
      match StepRetry(s.sinks[j], id, content, ok, now)
      case None => None
      case Some(k) => Some(s.(sinks := s.sinks[j := k]))
  }

  /** The state a schedule leads to; `None` when one of its actions is not enabled. */
  function Exec(s: State, content: Content, schedule: seq<Action>): Option<State>
    decreases |schedule|
  {
    if schedule == [] then Some(s) else
    match Step(s, content, schedule[0])
    case None => None
    case Some(next) => Exec(next, content, schedule[1..])
  }

  /** `s` occurs in some run from the initial state, with or without the guard. */
  ghost predicate Reachable(levels: seq<Level>, content: Content, s: State) {
    exists schedule :: Exec(Init(levels, s.guarded), content, schedule) == Some(s)
  }

  lemma ExecCons(s: State, content: Content, a: Action, rest: seq<Action>)
    ensures Exec(s, content, [a] + rest)
            == match Step(s, content, a) case None => None case Some(next) => Exec(next, content, rest)
  {
    assert ([a] + rest)[1..] == rest;
  }

  lemma {:induction false} ExecConcat(s: State, content: Content, a: seq<Action>, b: seq<Action>)
    requires Exec(s, content, a).Some?
    ensures Exec(s, content, a + b) == Exec(Exec(s, content, a).value, content, b)
    decreases |a|
  {
    if a == [] {
      assert a + b == b;
    } else {
      assert a == [a[0]] + a[1..] && a + b == [a[0]] + (a[1..] + b);
      ExecCons(s, content, a[0], a[1..]);
      ExecCons(s, content, a[0], a[1..] + b);
      ExecConcat(Step(s, content, a[0]).value, content, a[1..], b);
    }
  }

  /** The set of sinks and the guard are fixed, and events are only added. */
  lemma StepShape(s: State, content: Content, a: Action)
    requires Step(s, content, a).Some?
    ensures var s' := Step(s, content, a).value;
            |s'.sinks| == |s.sinks| && s'.guarded == s.guarded && s'.enqueued >= s.enqueued
  {
  }

  lemma {:induction false} ExecShape(s: State, content: Content, schedule: seq<Action>)
    requires Exec(s, content, schedule).Some?
    ensures var end := Exec(s, content, schedule).value; |end.sinks| == |s.sinks| && end.guarded == s.guarded
    decreases |schedule|
  {
    if schedule != [] {
      StepShape(s, content, schedule[0]);
      ExecShape(Step(s, content, schedule[0]).value, content, schedule[1..]);
    }
  }

  /** Some schedule leads from one state to the other. */
  ghost predicate Leads(s: State, content: Content, s': State) {
    exists schedule :: Exec(s, content, schedule) == Some(s')
  }

  lemma LeadsStep(s: State, content: Content, a: Action)
    requires Step(s, content, a).Some?
    ensures Leads(s, content, Step(s, content, a).value)
  {
    var next := Step(s, content, a).value;
    assert Exec(next, content, []) == Some(next);
    assert [a][1..] == [];
    assert Exec(s, content, [a]) == Some(next);
  }

  lemma LeadsRefl(s: State, content: Content)
    ensures Leads(s, content, s)
  {
    assert Exec(s, content, []) == Some(s);
  }

  lemma LeadsTrans(s: State, content: Content, mid: State, end: State)
    requires Leads(s, content, mid) && Leads(mid, content, end)
    ensures Leads(s, content, end)
  {
    var a :| Exec(s, content, a) == Some(mid);
    var b :| Exec(mid, content, b) == Some(end);
    ExecConcat(s, content, a, b);
  }

  /** Take one more step. */
  lemma Then(s: State, content: Content, mid: State, a: Action)
    requires Leads(s, content, mid) && Step(mid, content, a).Some?
    ensures Leads(s, content, Step(mid, content, a).value)
  {
    LeadsStep(mid, content, a);
    LeadsTrans(s, content, mid, Step(mid, content, a).value);
  }
}
