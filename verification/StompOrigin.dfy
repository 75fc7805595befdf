/** Whose reply does `do_write` take?  The queue of replies outlives its connection, so the answer
    depends on what was queued when the connection was opened. */
module StompOrigins {
  import opened Wrappers
  import opened Text
  import opened Numbers
  import opened StompFrames
  import opened StompSessions

  // ---------- whose reply is it? ----------

  predicate IsReceipt(e: Envelope) {
    e.reply.command == "RECEIPT"
  }

  /** How many replies of earlier connections are still at the front of the queue. */
  function Leftovers(l: Link): nat {
    if l.taken < l.stale then l.stale - l.taken else 0
  }

  /** The queue is ordered by connection, and nothing comes from the future. */
  ghost predicate Ordered(s: Session) {
    && Leftovers(s.link) <= |s.replies|
    && (forall i :: 0 <= i < |s.replies| ==> s.replies[i].connection <= s.link.number)
    && (forall i :: 0 <= i < |s.replies| ==>
          (s.replies[i].connection == s.link.number <==> i >= Leftovers(s.link)))
  }

  /** Until one of its own replies has been taken, the connection's first one is not a RECEIPT. */
  predicate FirstIsNoReceipt(s: Session) {
    Leftovers(s.link) <= |s.replies| && s.link.taken <= s.link.stale ==>
      var first := Leftovers(s.link);
      if |s.replies| == first then !s.link.greeted && !s.link.refused else !IsReceipt(s.replies[first])
  }

  /** Inside `do_write`, after `connect`. */
  predicate Sending(c: CallerPc) {
    c.Ready? || c.Writing? || c.Looking? || c.Waiting? || c.Comparing?
  }

  /** The connect thread has not connected yet. */
  predicate Dialling(s: Session) {
    s.thread.Some? && s.thread.value != Marking && s.thread.value != Finished
  }

  /** While the thread dials nobody sends; while it waits for its answer nothing has been taken. */
  predicate DiallingOk(s: Session) {
    && (Dialling(s) ==> !s.connected && !Sending(s.caller))
    && (s.thread == Some(Checking) || s.thread == Some(Awaiting) ==> s.link.taken == 0 && s.link.owed == {})
    && (s.thread == None && (s.caller.Exchanging? || s.caller.Resetting? || s.caller.Launching?) ==> !s.connected)
  }

  /** On a connection opened with replies left over, the first own reply that a `do_write` takes ends
      the connection. */
  predicate StaleOk(s: Session) {
    s.link.stale >= 1 && s.link.taken > s.link.stale ==>
      if s.caller.Comparing? then !IsReceipt(s.caller.envelope) else !s.connected && !Sending(s.caller)
  }

  ghost predicate NoReceipts(s: Session) {
    forall i :: 0 <= i < |s.replies| ==> !IsReceipt(s.replies[i])
  }

  /** No receipt is owed or queued. */
  ghost predicate Clean(s: Session) {
    s.link.owed == {} && NoReceipts(s)
  }

  /** Only the receipt of SEND `n` is owed or queued, and only once. */
  ghost predicate OnlyFor(s: Session, n: nat) {
    && s.link.owed <= {n}
    && (n in s.link.owed ==> NoReceipts(s))
    && (forall i :: 0 <= i < |s.replies| && IsReceipt(s.replies[i]) ==> s.replies[i].about == n)
    && (forall i, j :: 0 <= i < j < |s.replies| ==> !(IsReceipt(s.replies[i]) && IsReceipt(s.replies[j])))
  }

  /** On a connection opened with an empty queue, receipts answer the SEND under way. */
  ghost predicate FreshOk(s: Session) {
    s.link.stale == 0 ==>
      && (s.thread == Some(Checking) || s.thread == Some(Awaiting) ==> Clean(s))
      && match s.caller
         case Ready => Clean(s)
         case Writing(_) => Clean(s)
         case Looking(n) => OnlyFor(s, n)
         case Waiting(n) => OnlyFor(s, n)
         case Comparing(n, e) => IsReceipt(e) ==> e.about == n && Clean(s)
         case _ => s.connected ==> Clean(s)
  }

  /** The reply being compared belongs to this connection exactly if more replies have been taken than
      were left over. */
  predicate TakenOk(s: Session) {
    s.caller.Comparing? ==>
      s.link.taken >= 1 && (s.caller.envelope.connection == s.link.number <==> s.link.taken > s.link.stale)
  }

  ghost predicate OriginInv(s: Session) {
    ConnectInv(s) && Ordered(s) && FirstIsNoReceipt(s) && DiallingOk(s) && StaleOk(s) && FreshOk(s) && TakenOk(s)
  }

  // -- taking the head of the queue --

  lemma TakeOrder(s: Session)
    requires Ordered(s) && FirstIsNoReceipt(s) && s.replies != []
    ensures Ordered(Take(s)) && FirstIsNoReceipt(Take(s))
    ensures s.replies[0].connection == s.link.number <==> s.link.taken >= s.link.stale
    ensures s.link.taken == s.link.stale ==> !IsReceipt(s.replies[0])
  {
  }

  lemma TakeOnlyFor(s: Session, n: nat)
    requires OnlyFor(s, n) && s.replies != []
    ensures IsReceipt(s.replies[0]) ==> s.replies[0].about == n && Clean(Take(s))
  {
  }

  lemma DequeueOrigin(s: Session, n: nat)
    requires OriginInv(s) && s.replies != [] && (s.caller == Looking(n) || s.caller == Waiting(n))
    ensures OriginInv(Take(s).(caller := Comparing(n, s.replies[0])))
  {
    TakeOrder(s);
    if s.link.stale == 0 { TakeOnlyFor(s, n); }
  }

  lemma TakeClean(s: Session)
    requires s.replies != [] && Clean(s)
    ensures Clean(Take(s))
  {
  }

  lemma JudgeOrigin(s: Session)
    requires OriginInv(s) && s.replies != [] && (s.thread == Some(Checking) || s.thread == Some(Awaiting))
    ensures OriginInv(Judge(s))
  {
    TakeOrder(s);
    if s.link.stale == 0 { TakeClean(s); }
  }

  // -- the other steps --

  lemma WrittenOrigin(s: Session)
    requires OriginInv(s) && s.caller.Writing? && s.link.open
    ensures OriginInv(StepCaller(s, true).value)
  {
    var s' := StepCaller(s, true).value;
    assert s'.replies == s.replies && Leftovers(s'.link) == Leftovers(s.link);
  }

  lemma WriteOrigin(s: Session, ok: bool)
    requires OriginInv(s) && s.caller.Writing?
    ensures OriginInv(StepCaller(s, ok).value)
  {
    if ok && s.link.open {
      WrittenOrigin(s);
    } else {
      SameQueue(s, GiveUp(s));
    }
  }

  lemma ConnectOrigin(s: Session, ok: bool)
    requires OriginInv(s) && StepCaller(s, ok).Some? && !Sending(s.caller)
    ensures OriginInv(StepCaller(s, ok).value)
  {
    CallerConnects(s, ok);
    SameQueue(s, StepCaller(s, ok).value);
  }

  lemma CompareOrigin(s: Session, ok: bool)
    requires OriginInv(s) && s.caller.Comparing?
    ensures OriginInv(StepCaller(s, ok).value)
  {
    Compared(s, ok);
    BackIdle(s, StepCaller(s, ok).value);
  }

  /** Without a receipt the socket is closed; nothing is taken from the queue. */
  lemma Compared(s: Session, ok: bool)
    requires s.caller.Comparing?
    ensures var s' := StepCaller(s, ok).value;
            && s' == s.(caller := Idle, connected := s'.connected, acknowledged := s'.acknowledged,
                        link := s.link.(open := s'.link.open))
            && (s'.connected ==> s.connected && IsReceipt(s.caller.envelope))
  {
  }

  lemma BackIdle(s: Session, s': Session)
    requires OriginInv(s) && s.caller.Comparing?
    requires s' == s.(caller := Idle, connected := s'.connected, acknowledged := s'.acknowledged,
                      link := s.link.(open := s'.link.open))
    requires s'.connected ==> s.connected && IsReceipt(s.caller.envelope)
    ensures OriginInv(s')
  {
    SameQueue(s, s');
  }

  lemma CallerOrigin(s: Session, ok: bool)
    requires OriginInv(s) && StepCaller(s, ok).Some?
    ensures OriginInv(StepCaller(s, ok).value)
  {
    if !Sending(s.caller) {
      ConnectOrigin(s, ok);
    } else if s.caller.Writing? {
      WriteOrigin(s, ok);
    } else if s.caller.Comparing? {
      CompareOrigin(s, ok);
    } else if !s.caller.Ready? && s.replies != [] && (s.caller.Waiting? ==> ok) {
      DequeueOrigin(s, s.caller.n);
    } else {
      StandOrigin(s, ok);
    }
  }

  /** A new send, an empty queue, or a timeout. */
  lemma StandOrigin(s: Session, ok: bool)
    requires OriginInv(s) && StepCaller(s, ok).Some?
    requires s.caller.Ready? || (s.caller.Looking? && s.replies == []) || (s.caller.Waiting? && !ok)
    ensures OriginInv(StepCaller(s, ok).value)
  {
    SameQueue(s, StepCaller(s, ok).value);
  }

  /** Order and first reply depend on queue and connection only. */
  lemma SameQueue(s: Session, s': Session)
    requires Ordered(s) && FirstIsNoReceipt(s) && s'.replies == s.replies && s'.link == s.link.(open := s'.link.open)
    ensures Ordered(s') && FirstIsNoReceipt(s') && (Clean(s) ==> Clean(s'))
    ensures forall n :: OnlyFor(s, n) ==> OnlyFor(s', n)
  {
  }

  /** A new connection counts what is queued. */
  lemma OpenOrigin(s: Session)
    requires OriginInv(s) && s.thread == Some(Greeting)
    ensures OriginInv(s.(thread := Some(Checking), link := NextLink(s)))
  {
  }

  /** Steps of the connect thread that touch neither queue nor connection. */
  lemma QuietThread(s: Session, ok: bool)
    requires OriginInv(s) && StepThread(s, ok).Some?
    requires !(s.thread == Some(Greeting) && ok) && !(s.thread == Some(Checking) && s.replies != [])
    requires !(s.thread == Some(Awaiting) && ok)
    ensures OriginInv(StepThread(s, ok).value)
  {
    ThreadConnects(s, ok);
    SameQueue(s, StepThread(s, ok).value);
  }

  lemma ThreadOrigin(s: Session, ok: bool)
    requires OriginInv(s) && StepThread(s, ok).Some?
    ensures OriginInv(StepThread(s, ok).value)
  {
    if s.thread == Some(Greeting) && ok {
      OpenOrigin(s);
    } else if (s.thread == Some(Checking) && s.replies != []) || (s.thread == Some(Awaiting) && ok) {
      JudgeOrigin(s);
    } else {
      QuietThread(s, ok);
    }
  }

  lemma ArriveOrder(s: Session, r: Reply, n: nat)
    requires Ordered(s) && FirstIsNoReceipt(s) && Conformant(s, Arrive(r, n))
    ensures Ordered(Queue(s, r, n)) && FirstIsNoReceipt(Queue(s, r, n))
  {
  }

  lemma ArriveClean(s: Session, r: Reply, n: nat)
    requires Clean(s) && Conformant(s, Arrive(r, n))
    ensures Clean(Queue(s, r, n))
  {
  }

  lemma ArriveOnlyFor(s: Session, r: Reply, n: nat, m: nat)
    requires OnlyFor(s, m) && Conformant(s, Arrive(r, n))
    ensures OnlyFor(Queue(s, r, n), m)
  {
  }

  lemma ArriveOrigin(s: Session, r: Reply, n: nat)
    requires OriginInv(s) && Conformant(s, Arrive(r, n))
    ensures OriginInv(Queue(s, r, n))
  {
    ArriveOrder(s, r, n);
    if Clean(s) { ArriveClean(s, r, n); }
    if s.caller.Looking? || s.caller.Waiting? {
      if OnlyFor(s, s.caller.n) { ArriveOnlyFor(s, r, n, s.caller.n); }
    }
    assert Queue(s, r, n).link.owed <= s.link.owed;
  }

  lemma OriginStep(s: Session, a: Action)
    requires OriginInv(s) && Step(s, a).Some? && Conformant(s, a)
    ensures OriginInv(Step(s, a).value)
  {
    match a
    case CallerStep(ok) => CallerOrigin(s, ok);
    case ThreadStep(ok) => ThreadOrigin(s, ok);
    case Arrive(r, n) => ArriveOrigin(s, r, n);
    case Process(n) => SameQueue(s, Step(s, a).value);
    case ReaderFails => SameQueue(s, Close(s));
    case Call => SameQueue(s, Step(s, a).value);
  }

  lemma {:induction false} OriginRun(s: Session, schedule: seq<Action>)
    requires OriginInv(s) && Exec(s, schedule).Some? && ConformantRun(s, schedule)
    ensures OriginInv(Exec(s, schedule).value)
    decreases |schedule|
  {
    if schedule != [] {
      OriginStep(s, schedule[0]);
      OriginRun(Step(s, schedule[0]).value, schedule[1..]);
    }
  }

  /** The reply that `do_write` takes belongs to its own connection exactly if more replies have been
      taken since the connection was opened than were queued at that time. */
  lemma OwnReplyIff(schedule: seq<Action>)
    requires Exec(INITIAL, schedule).Some? && ConformantRun(INITIAL, schedule)
    requires Exec(INITIAL, schedule).value.caller.Comparing?
    ensures var end := Exec(INITIAL, schedule).value;
            end.caller.envelope.connection == end.link.number <==> end.link.taken > end.link.stale
  {
    OriginRun(INITIAL, schedule);
  }

  /** A RECEIPT that `do_write` takes is that of its own SEND exactly if the queue was empty when the
      connection was opened: a single reply left over spoils every receipt of the connection. */
  lemma OwnReceiptIffFreshStart(schedule: seq<Action>)
    requires Exec(INITIAL, schedule).Some? && ConformantRun(INITIAL, schedule)
    requires var end := Exec(INITIAL, schedule).value; end.caller.Comparing? && IsReceipt(end.caller.envelope)
    ensures var end := Exec(INITIAL, schedule).value; var e := end.caller.envelope;
            (e.connection == end.link.number && e.about == end.caller.n) <==> end.link.stale == 0
  {
    OriginRun(INITIAL, schedule);
  }

  /** On such a connection a RECEIPT means success, and success means that the event was processed,
      after any number of sends. */
  lemma FreshStartIsSound(schedule: seq<Action>, ok: bool)
    requires Exec(INITIAL, schedule).Some? && ConformantRun(INITIAL, schedule)
    requires var end := Exec(INITIAL, schedule).value;
             end.caller.Comparing? && IsReceipt(end.caller.envelope) && end.link.stale == 0
    ensures var end := Exec(INITIAL, schedule).value;
            && end.caller.n in end.processed
            && StepCaller(end, ok).Some? && StepCaller(end, ok).value.acknowledged == end.acknowledged + {end.caller.n}
  {
    OriginRun(INITIAL, schedule);
    ReceiptRun(INITIAL, schedule);
  }

  // ---------- the bound on the number of sends is exact ----------

  const WELCOMING := Reply("CONNECTED", map["version" := "1.1"], "")

  const FAILURE := Reply("ERROR", map[], "")

  /** The replies without their origins. */
  function Frames(queue: seq<Envelope>): seq<Reply> {
    seq(|queue|, i requires 0 <= i < |queue| => queue[i].reply)
  }

  /** Nothing is going on; whatever was queued before still is. */
  predicate Rested(s: Session) {
    s.caller == Idle && !s.connected && !s.connecting && s.thread == None && s.receipt == s.sends % RECEIPT_MODULUS
  }

  /** The socket is opened and CONNECT is sent. */
  lemma Dials(s0: Session, s: Session) returns (s': Session)
    requires Leads(s0, s) && Rested(s)
    ensures Leads(s0, s') && s' == s.(connecting := true, done := false, thread := Some(Checking), link := NextLink(s))
  {
    Then(s0, s, Call);
    Then(s0, s.(caller := Testing), CallerStep(true));
    Then(s0, s.(caller := Exchanging), CallerStep(true));
    Then(s0, s.(connecting := true, caller := Resetting), CallerStep(true));
    Then(s0, s.(connecting := true, done := false, caller := Launching), CallerStep(true));
    var t := s.(connecting := true, done := false, thread := Some(Opening));
    Then(s0, t, ThreadStep(true));
    Then(s0, t.(thread := Some(Greeting)), ThreadStep(true));
    s' := t.(thread := Some(Checking), link := NextLink(t));
  }

  /** The head of the queue is taken for the answer. */
  lemma Answered(s0: Session, s: Session) returns (s': Session)
    requires Leads(s0, s) && s.thread == Some(Checking) && s.replies != [] && !s.connected
    ensures Leads(s0, s')
    ensures var welcome := Welcome(s.replies[0].reply);
            s' == Take(s).(connected := welcome, done := true, thread := Some(Finished),
                           link := Take(s).link.(open := welcome && s.link.open))
  {
    Then(s0, s, ThreadStep(true));
    Then(s0, Judge(s), ThreadStep(true));
    s' := StepThread(Judge(s), true).value;
  }

  /** After the connection is lost the finished thread is joined, and that call fails. */
  lemma Rests(s0: Session, s: Session) returns (s': Session)
    requires Leads(s0, s) && s.caller == Idle && s.connecting && s.done && s.thread == Some(Finished)
    requires s.receipt == s.sends % RECEIPT_MODULUS
    ensures Leads(s0, s') && Rested(s')
    ensures s' == Close(s).(connecting := false, thread := None)
  {
    Then(s0, s, ReaderFails);
    var t := Close(s);
    Then(s0, t, Call);
    Then(s0, t.(caller := Testing), CallerStep(true));
    Then(s0, t.(caller := Exchanging), CallerStep(true));
    Then(s0, t.(caller := CheckingDone), CallerStep(true));
    Then(s0, t.(caller := Clearing), CallerStep(true));
    Then(s0, t.(connecting := false, caller := Joining), CallerStep(true));
    Then(s0, t.(connecting := false, thread := None, caller := Rechecking), CallerStep(true));
    s' := t.(connecting := false, thread := None);
  }

  /** A server that accepts the connection and then shuts down leaves two replies for one taken. */
  lemma QueueGrows(s0: Session, s: Session) returns (s': Session)
    requires Leads(s0, s) && Rested(s)
    ensures Leads(s0, s') && Rested(s')
    ensures Frames(s'.replies) == (Frames(s.replies) + [WELCOMING, FAILURE])[1..]
    ensures s' == s.(done := true, replies := s'.replies, link := s'.link)
  {
    var t := Dials(s0, s);
    Then(s0, t, Arrive(WELCOMING, 0));
    var u := Queue(t, WELCOMING, 0);
    Then(s0, u, Arrive(FAILURE, 0));
    var v := Queue(u, FAILURE, 0);
    assert Frames(v.replies) == Frames(s.replies) + [WELCOMING, FAILURE];
    var w := Answered(s0, v);
    s' := Rests(s0, w);
    assert Frames(v.replies[1..]) == Frames(v.replies)[1..];
  }

  function Pairs(k: nat): seq<Reply> {
    if k == 0 then [] else [WELCOMING, FAILURE] + Pairs(k - 1)
  }

  lemma {:induction false} PairsEnd(k: nat)
    ensures Pairs(k) + [WELCOMING, FAILURE] == Pairs(k + 1)
  {
    if k > 0 {
      PairsEnd(k - 1);
      Assoc([WELCOMING, FAILURE], Pairs(k - 1), [WELCOMING, FAILURE]);
    } else {
      assert Pairs(1) == [WELCOMING, FAILURE] + [];
    }
  }

  /** Two pairs in, one pair's worth out. */
  lemma TwoTaken(k: nat)
    ensures ((Pairs(k) + [WELCOMING, FAILURE])[1..] + [WELCOMING, FAILURE])[1..] == Pairs(k + 1)
  {
    var pair := [WELCOMING, FAILURE];
    PairsEnd(k);
    PairsEnd(k + 1);
    DropFirst(Pairs(k + 1), pair);
    PairInFront(Pairs(k + 1));
  }

  lemma DropFirst(a: seq<Reply>, b: seq<Reply>)
    requires a != []
    ensures a[1..] + b == (a + b)[1..]
  {
  }

  lemma PairInFront(a: seq<Reply>)
    ensures ([WELCOMING, FAILURE] + a)[1..][1..] == a
  {
  }

  /** Any number of such connections, before anything is sent. */
  lemma {:induction false} QueueOfPairs(k: nat) returns (s: Session)
    ensures Leads(INITIAL, s) && Rested(s) && Frames(s.replies) == Pairs(k)
    ensures s.sends == 0 && s.written == {} && s.processed == {} && s.acknowledged == {}
  {
    if k == 0 {
      Start(INITIAL);
      s := INITIAL;
    } else {
      var s1 := QueueOfPairs(k - 1);
      var s2 := QueueGrows(INITIAL, s1);
      s := QueueGrows(INITIAL, s2);
      TwoTaken(k - 1);
    }
  }

  /** A connection made with a CONNECTED left over from an earlier one, and a SEND written on it. */
  lemma Sends(s0: Session, s: Session, greet: bool) returns (s': Session)
    requires Leads(s0, s) && Rested(s) && s.replies != [] && s.replies[0].reply == WELCOMING
    ensures Leads(s0, s')
    ensures var n := s.sends + 1;
            && s'.caller == Looking(n) && s'.sends == n && s'.receipt == n % RECEIPT_MODULUS
            && s'.connecting && s'.done && s'.thread == Some(Finished)
            && s'.written == s.written + {n} && s'.processed == s.processed && s'.acknowledged == s.acknowledged
            && s'.link.open && s'.link.owed == {n} && s'.link.greeted == greet && !s'.link.refused
            && Frames(s'.replies) == (Frames(s.replies) + if greet then [WELCOMING] else [])[1..]
  {
    var t := Dials(s0, s);
    var u := t;
    if greet {
      Then(s0, t, Arrive(WELCOMING, 0));
      u := Queue(t, WELCOMING, 0);
    }
    assert Frames(u.replies) == Frames(s.replies) + if greet then [WELCOMING] else [];
    assert u.replies[0].reply == WELCOMING;
    var v := Answered(s0, u);
    assert Frames(u.replies[1..]) == Frames(u.replies)[1..];
    s' := Transmits(s0, v);
  }

  lemma Transmits(s0: Session, s: Session) returns (s': Session)
    requires Leads(s0, s) && s.caller == Idle && s.connected && s.link.open
    ensures Leads(s0, s')
    ensures var n := s.sends + 1;
            s' == s.(receipt := (s.receipt + 1) % RECEIPT_MODULUS, sends := n, written := s.written + {n},
                     link := s.link.(owed := s.link.owed + {n}), caller := Looking(n))
  {
    Then(s0, s, Call);
    Then(s0, s.(caller := Testing), CallerStep(true));
    Then(s0, s.(caller := Ready), CallerStep(true));
    var t := s.(receipt := (s.receipt + 1) % RECEIPT_MODULUS, sends := s.sends + 1, caller := Writing(s.sends + 1));
    Then(s0, t, CallerStep(true));
    s' := t.(written := t.written + {t.sends}, link := t.link.(owed := t.link.owed + {t.sends}), caller := Looking(t.sends));
  }

  /** `do_write` takes an ERROR left over from an earlier connection, and gives up its own. */
  lemma GivesUp(s0: Session, s: Session) returns (s': Session)
    requires Leads(s0, s) && s.caller.Looking? && s.replies != [] && s.replies[0].reply == FAILURE
    requires s.connecting && s.done && s.thread == Some(Finished) && s.receipt == s.sends % RECEIPT_MODULUS
    ensures Leads(s0, s') && Rested(s')
    ensures s'.replies == s.replies[1..] && s'.sends == s.sends && s'.receipt == s.receipt
    ensures s'.written == s.written && s'.processed == s.processed && s'.acknowledged == s.acknowledged
  {
    Then(s0, s, CallerStep(true));
    var t := Take(s).(caller := Comparing(s.caller.n, s.replies[0]));
    Then(s0, t, CallerStep(true));
    s' := Rests(s0, GiveUp(t));
  }

  /** The first SEND is processed, and its receipt comes to stand behind all that is queued. */
  lemma ReceiptIsBuried(s0: Session, s: Session, rest: seq<Reply>) returns (s': Session)
    requires Leads(s0, s) && Rested(s) && s.sends == 0 && s.written == {} && s.processed == {} && s.acknowledged == {}
    requires Frames(s.replies) == [WELCOMING, FAILURE] + rest
    ensures Leads(s0, s') && Rested(s') && Frames(s'.replies) == rest + [WELCOMING, ReceiptFor(1)]
    ensures s'.sends == 1 && s'.written == {1} && s'.processed == {1} && s'.acknowledged == {}
  {
    assert s.replies[0].reply == Frames(s.replies)[0];
    var t := Sends(s0, s, true);
    Then(s0, t, Process(1));
    var u := t.(processed := {1});
    assert u.processed == t.processed + {1};
    Then(s0, u, Arrive(ReceiptFor(1), 1));
    var v := Queue(u, ReceiptFor(1), 1);
    assert Frames(v.replies) == Frames(u.replies) + [ReceiptFor(1)];
    assert Frames(v.replies) == [FAILURE] + (rest + [WELCOMING, ReceiptFor(1)]);
    assert v.replies[0].reply == Frames(v.replies)[0];
    s' := GivesUp(s0, v);
    assert Frames(v.replies[1..]) == Frames(v.replies)[1..];
  }

  /** Every further SEND uses up one pair. */
  lemma SendIsWasted(s0: Session, s: Session, rest: seq<Reply>) returns (s': Session)
    requires Leads(s0, s) && Rested(s) && Frames(s.replies) == [WELCOMING, FAILURE] + rest
    ensures Leads(s0, s') && Rested(s') && Frames(s'.replies) == rest
    ensures s'.sends == s.sends + 1 && s'.processed == s.processed && s'.acknowledged == s.acknowledged
  {
    assert s.replies[0].reply == Frames(s.replies)[0];
    var t := Sends(s0, s, false);
    assert Frames(t.replies) == [FAILURE] + rest;
    assert t.replies[0].reply == Frames(t.replies)[0];
    s' := GivesUp(s0, t);
    assert Frames(t.replies[1..]) == Frames(t.replies)[1..];
  }

  lemma {:induction false} ManySends(k: nat, n: nat) returns (s: Session)
    requires n <= k
    ensures Leads(INITIAL, s) && Rested(s) && Frames(s.replies) == Pairs(k - n) + [WELCOMING, ReceiptFor(1)]
    ensures s.sends == n + 1 && s.processed == {1} && s.acknowledged == {}
  {
    if n == 0 {
      var s1 := QueueOfPairs(k + 1);
      s := ReceiptIsBuried(INITIAL, s1, Pairs(k));
    } else {
      var s1 := ManySends(k, n - 1);
      Assoc([WELCOMING, FAILURE], Pairs(k - n), [WELCOMING, ReceiptFor(1)]);
      s := SendIsWasted(INITIAL, s1, Pairs(k - n) + [WELCOMING, ReceiptFor(1)]);
    }
  }

  /** For every later SEND there is a run in which `do_write` takes the receipt of the first one. */
  lemma LeftoverIsTaken(n: nat) returns (s: Session)
    requires n >= 2
    ensures Leads(INITIAL, s) && s.caller.Comparing? && s.caller.n == s.sends == n
    ensures s.caller.envelope.reply == ReceiptFor(1)
    ensures s.processed == {1} && s.acknowledged == {} && s.receipt == n % RECEIPT_MODULUS
  {
    var s1 := ManySends(n - 2, n - 2);
    assert Frames(s1.replies) == [WELCOMING, ReceiptFor(1)];
    assert s1.replies[0].reply == Frames(s1.replies)[0];
    var t := Sends(INITIAL, s1, false);
    assert Frames(t.replies) == [ReceiptFor(1)];
    assert t.replies[0].reply == Frames(t.replies)[0];
    Then(INITIAL, t, CallerStep(true));
    s := Take(t).(caller := Comparing(n, t.replies[0]));
  }

  /** With one SEND more than there are receipt numbers, the receipt of the first one, left over since
      its connection was closed, acknowledges the last one, which the server has not processed. */
  lemma OneSendMoreIsUnsound() returns (end: Session)
    ensures Leads(INITIAL, end) && end.sends == 0x1_0000_0001 && !(end.acknowledged <= end.processed)
  {
    var n := RECEIPT_MODULUS + 1;
    var s := LeftoverIsTaken(n);
    assert n % RECEIPT_MODULUS == 1;
    Then(INITIAL, s, CallerStep(true));
    end := Fail(s).(acknowledged := s.acknowledged + {n});
    assert n in end.acknowledged && n !in end.processed;
  }

  /** Acknowledgements are sound for every run of up to `limit` sends exactly when the limit does
      not exceed the range of the receipt number. */
  lemma SoundIffReceiptsDoNotWrap(limit: nat)
    ensures (forall end :: Leads(INITIAL, end) && end.sends <= limit ==> end.acknowledged <= end.processed)
            <==> limit <= 0x1_0000_0000
  {
    if limit <= RECEIPT_MODULUS {
      forall end | Leads(INITIAL, end) && end.sends <= limit ensures end.acknowledged <= end.processed {
        var schedule :| Exec(INITIAL, schedule) == Some(end) && ConformantRun(INITIAL, schedule);
        AcknowledgedIsProcessed(schedule);
      }
    } else {
      var end := OneSendMoreIsUnsound();
    }
  }
}
