/** `connect_thread`, `connect` and the handshake of `do_write` in their own, imperative form; every method
    is proved to be a run of the session machine. */
module StompSinks {
  import opened Wrappers
  import opened Numbers
  import opened StompFrames
  import opened StompSessions
  import LogEvents
  import StompReaders
  import StompSend

  // ---------- the lines, one by one ----------

  lemma Tested(start: Session, s: Session)
    requires Leads(start, s) && s.caller == Testing
    ensures Leads(start, s.(caller := if s.connected then Ready else Exchanging))
  {
    Then(start, s, CallerStep(true));
  }

  lemma Exchanged(start: Session, s: Session)
    requires Leads(start, s) && s.caller == Exchanging
    ensures Leads(start, s.(connecting := true, caller := if s.connecting then CheckingDone else Resetting))
  {
    Then(start, s, CallerStep(true));
  }

  lemma Launched(start: Session, s: Session)
    requires Leads(start, s) && s.caller == Resetting && s.thread == None
    ensures Leads(start, s.(done := false, thread := Some(Opening), caller := Idle))
  {
    Then(start, s, CallerStep(true));
    Then(start, s.(done := false, caller := Launching), CallerStep(true));
  }

  lemma StillTrying(start: Session, s: Session)
    requires Leads(start, s) && s.caller == CheckingDone && !s.done
    ensures Leads(start, s.(caller := Idle))
  {
    Then(start, s, CallerStep(true));
  }

  lemma Joined(start: Session, s: Session)
    requires Leads(start, s) && s.caller == CheckingDone && s.done && s.thread == Some(Finished)
    ensures Leads(start, s.(connecting := false, thread := None, caller := if s.connected then Ready else Idle))
  {
    Then(start, s, CallerStep(true));
    Then(start, s.(caller := Clearing), CallerStep(true));
    Then(start, s.(connecting := false, caller := Joining), CallerStep(true));
    Then(start, s.(connecting := false, thread := None, caller := Rechecking), CallerStep(true));
  }

  /** The SEND has its number. */
  function Counted(s: Session): Session {
    s.(receipt := (s.receipt + 1) % RECEIPT_MODULUS, sends := s.sends + 1, caller := Writing(s.sends + 1))
  }

  lemma Numbered(start: Session, s: Session)
    requires Leads(start, s) && s.caller == Ready
    ensures Leads(start, Counted(s))
  {
    Then(start, s, CallerStep(true));
  }

  lemma WriteFails(start: Session, s: Session, ok: bool)
    requires Leads(start, s) && s.caller.Writing? && !(ok && s.link.open)
    ensures Leads(start, GiveUp(s))
  {
    Then(start, s, CallerStep(ok));
  }

  /** The SEND is on the socket. */
  function OnTheWire(s: Session): Session
    requires s.caller.Writing?
  {
    var n := s.caller.n;
    s.(written := s.written + {n}, link := s.link.(owed := s.link.owed + {n}), caller := Looking(n))
  }

  lemma WriteSucceeds(start: Session, s: Session)
    requires Leads(start, s) && s.caller.Writing? && s.link.open
    ensures Leads(start, OnTheWire(s))
  {
    Then(start, s, CallerStep(true));
  }

  lemma TakesHead(start: Session, s: Session)
    requires Leads(start, s) && s.caller.Looking? && s.replies != []
    ensures Leads(start, Take(s).(caller := Comparing(s.caller.n, s.replies[0])))
  {
    Then(start, s, CallerStep(true));
  }

  lemma TimesOut(start: Session, s: Session)
    requires Leads(start, s) && s.caller.Looking? && s.replies == []
    ensures Leads(start, GiveUp(s))
  {
    Then(start, s, CallerStep(true));
    Then(start, s.(caller := Waiting(s.caller.n)), CallerStep(false));
  }

  /** The server processes SEND `n` while the caller waits for a reply. */
  function Served(s: Session, n: nat): Session {
    s.(processed := s.processed + {n}, caller := Waiting(n))
  }

  lemma TakesArrival(start: Session, s: Session, n: nat, reply: Reply, about: nat)
    requires Leads(start, s) && s.caller == Looking(n) && s.replies == [] && n in s.written && s.link.open
    requires Conformant(Served(s, n), Arrive(reply, about))
    ensures var t := Queue(Served(s, n), reply, about);
            t.replies == [Envelope(reply, s.link.number, about)]
            && Leads(start, Take(t).(caller := Comparing(n, t.replies[0])))
  {
    Then(start, s, CallerStep(true));
    Then(start, s.(caller := Waiting(n)), Process(n));
    Then(start, Served(s, n), Arrive(reply, about));
    Then(start, Queue(Served(s, n), reply, about), CallerStep(true));
  }

  lemma Compares(start: Session, s: Session)
    requires Leads(start, s) && s.caller.Comparing?
    ensures var id := ReceiptId(s.caller.envelope.reply);
            Leads(start, if id == None then GiveUp(s)
                         else if id == Some(Decimal(s.receipt)) then
                           s.(acknowledged := s.acknowledged + {s.caller.n}, caller := Idle)
                         else s.(caller := Idle))
  {
    Then(start, s, CallerStep(true));
  }

  /** What the server may send once it has processed the SEND that is written in state `s`. */
  predicate Deliverable(s: Session, n: nat, e: Envelope) {
    e.connection == s.link.number && Conformant(Served(s, n), Arrive(e.reply, e.about))
  }

  /** It may always send the receipt of that SEND on a connection it has accepted. */
  lemma ReceiptIsDeliverable(s: Session)
    requires s.link.greeted && !s.link.refused && s.caller == Ready
    ensures var n := s.sends + 1;
            Deliverable(OnTheWire(Counted(s)), n, Envelope(ReceiptFor(n), s.link.number, n))
  {
  }

  /** In every run, what the server reads in the `receipt` header of the packet that is being written is
      what the RECEIPT of that SEND carries in `receipt-id`. */
  lemma ReceiptNamesThePacket(schedule: seq<Action>, path: string, o: StompSend.Origin, e: LogEvents.LogEvent)
    requires Exec(INITIAL, schedule).Some? && ConformantRun(INITIAL, schedule)
    requires Exec(INITIAL, schedule).value.caller.Writing? && StompSend.PlainPath(path) && StompSend.PlainTime(e)
    ensures var s := Exec(INITIAL, schedule).value;
            var packet := StompSend.Packet(path, s.receipt, o, e);
            var replies := StompReaders.OnBytes(StompReaders.Decoder("", [], true), packet).replies;
            && |replies| == 1 && "receipt" in replies[0].headers
            && replies[0].headers["receipt"] == ReceiptFor(s.caller.n).headers["receipt-id"]
  {
    ReceiptRun(INITIAL, schedule);
    StompSend.HeadersArrive(path, Exec(INITIAL, schedule).value.receipt, o, e);
  }

  // ---------- the sink ----------

  /** The receipt number follows the number of sends. */
  lemma OwnNumber(sends: nat)
    ensures (sends % RECEIPT_MODULUS + 1) % RECEIPT_MODULUS == (sends + 1) % RECEIPT_MODULUS
  {
  }

  class StompSink {
    var connected: bool
    var connecting: bool
    var connectThreadDone: bool
    var connectThread: Option<ThreadPc>
    var receipt: nat
    var replyQueue: seq<Envelope>
    var socketOpen: bool
    ghost var sends: nat
    ghost var written: set<nat>
    ghost var processed: set<nat>
    ghost var acknowledged: set<nat>
    ghost var record: Link

    constructor ()
      ensures AsSession(Idle) == INITIAL
    {
      connected, connecting, connectThreadDone, connectThread := false, false, false, None;
      receipt, replyQueue, socketOpen := 0, [], false;
      sends, written, processed, acknowledged, record := 0, {}, {}, {}, INITIAL.link;
    }

    ghost function AsSession(caller: CallerPc): Session
      reads this
    {
      Session(connected, connecting, connectThreadDone, connectThread, receipt, replyQueue, caller,
              sends, written, processed, acknowledged, record.(open := socketOpen))
    }

    method Disconnect()
      modifies this`connected, this`socketOpen
      ensures !connected && !socketOpen
    {
      socketOpen := false;
      connected := false;
    }

    /** One step of `connect_thread`; `ok` is whether the socket connects, the CONNECT is written, or a
        reply comes in time. */
    method ConnectThreadStep(ok: bool)
      requires StepThread(AsSession(Idle), ok).Some?
      modifies this`connected, this`connectThreadDone, this`connectThread, this`replyQueue, this`socketOpen, this`record
      ensures forall c :: StepThread(old(AsSession(c)), ok) == Some(AsSession(c))
    {
      match connectThread.value
      case Opening =>
        if ok { connectThread := Some(Greeting); } else { Finish(); }
      case Greeting =>
        if ok {
          socketOpen := true;
          record := Link(record.number + 1, true, {}, false, false, |replyQueue|, 0);
          connectThread := Some(Checking);
        } else {
          connectThread := Some(Failing);
        }
      case Checking =>
        if replyQueue == [] { connectThread := Some(Awaiting); } else { JudgeReply(); }
      case Awaiting =>
        if ok { JudgeReply(); } else { connectThread := Some(Failing); }
      case Failing =>
        Disconnect();
        Finish();
      case Marking => Finish();
      case Finished =>
    }

    method Finish()
      modifies this`connectThreadDone, this`connectThread
      ensures connectThreadDone && connectThread == Some(Finished)
    {
      connectThreadDone := true;
      connectThread := Some(Finished);
    }

    method PopReply() returns (reply: Reply)
      requires replyQueue != []
      modifies this`replyQueue, this`record
      ensures reply == old(replyQueue)[0].reply && replyQueue == old(replyQueue)[1..]
      ensures forall c :: AsSession(c) == Take(old(AsSession(c)))
    {
      reply := replyQueue[0].reply;
      replyQueue := replyQueue[1..];
      record := record.(taken := record.taken + 1);
    }

    /** The reader thread queues a reply. */
    method QueueReply(e: Envelope)
      requires e.connection == record.number
      modifies this`replyQueue, this`record
      ensures replyQueue == old(replyQueue) + [e]
      ensures forall c :: AsSession(c) == Queue(old(AsSession(c)), e.reply, e.about)
    {
      replyQueue := replyQueue + [e];
      record := record.(greeted := record.greeted || e.reply.command == "CONNECTED",
                        refused := record.refused || e.reply.command == "ERROR",
                        owed := if e.reply.command == "RECEIPT" then record.owed - {e.about} else record.owed);
    }

    method JudgeReply()
      requires replyQueue != []
      modifies this`connected, this`connectThread, this`replyQueue, this`record
      ensures forall c :: AsSession(c) == Judge(old(AsSession(c)))
      ensures connectThread == Some(Marking)
              <==> var reply := old(replyQueue)[0].reply;
                   && reply.command == "CONNECTED"
                   && "version" in reply.headers && reply.headers["version"] == "1.1"
                   && ("heart-beat" in reply.headers ==>
                         exists sx :: reply.headers["heart-beat"] == sx + ",0" && ',' !in sx && StrtolReadsAll(sx))
    {
      WelcomeIff(replyQueue[0].reply);
      var reply := PopReply();
      if Welcome(reply) {
        connected := true;
        connectThread := Some(Marking);
      } else {
        connectThread := Some(Failing);
      }
    }

    /** What the connect thread does while the caller is at line `caller`. */
    method RunConnectThread(ghost start: Session, ghost caller: CallerPc, meanwhile: seq<bool>)
      requires Leads(start, AsSession(caller))
      modifies this`connected, this`connectThreadDone, this`connectThread, this`replyQueue, this`socketOpen, this`record
      ensures Leads(start, AsSession(caller))
      ensures old(ConnectInv(AsSession(caller))) ==> ConnectInv(AsSession(caller))
    {
      for i := 0 to |meanwhile|
        invariant Leads(start, AsSession(caller))
        invariant old(ConnectInv(AsSession(caller))) ==> ConnectInv(AsSession(caller))
      {
        if Blocked(meanwhile[i]) { break; }
        ghost var before := AsSession(caller);
        Then(start, before, ThreadStep(meanwhile[i]));
        if ConnectInv(before) { ThreadConnects(before, meanwhile[i]); }
        ConnectThreadStep(meanwhile[i]);
      }
    }

    predicate Blocked(ok: bool)
      reads this
      ensures Blocked(ok) <==> StepThread(AsSession(Idle), ok) == None
    {
      connectThread == None || connectThread == Some(Finished)
      || (connectThread == Some(Awaiting) && ok && replyQueue == [])
    }

    /** True exactly when connected, possibly since the connect thread, running on while the caller is
        in here, has succeeded and is joined; otherwise the thread is started, left alone or joined. */
    method Connect(meanwhile: seq<bool>) returns (ok: bool)
      requires ConnectInv(AsSession(Testing))
      modifies this`connected, this`connecting, this`connectThreadDone, this`connectThread, this`replyQueue,
               this`socketOpen, this`record
      ensures Leads(old(AsSession(Testing)), AsSession(if ok then Ready else Idle))
      ensures ConnectInv(AsSession(if ok then Ready else Idle))
      ensures ok ==> connected
      ensures ok <==> old(connected) || (old(connecting) && connectThreadDone && connected)
      ensures !old(connected) ==> if !old(connecting) then connectThread == Some(Opening)
                                  else (connectThreadDone <==> connectThread == None)
    {
      ghost var start := AsSession(Testing);
      Start(start);
      Tested(start, start);
      if connected {
        return true;
      }
      RunConnectThread(start, Exchanging, meanwhile);
      ok := Exchange(start);
    }

    /** Lines 189-208. */
    method Exchange(ghost start: Session) returns (ok: bool)
      requires ConnectInv(AsSession(Exchanging)) && Leads(start, AsSession(Exchanging))
      modifies this`connecting, this`connectThreadDone, this`connectThread
      ensures ConnectInv(AsSession(if ok then Ready else Idle)) && Leads(start, AsSession(if ok then Ready else Idle))
      ensures ok <==> old(connecting) && connectThreadDone && connected
      ensures if !old(connecting) then connectThread == Some(Opening) else (connectThreadDone <==> connectThread == None)
    {
      Exchanged(start, AsSession(Exchanging));
      var was := connecting;
      connecting := true;
      if was {
        ok := AfterAttempt(start);
      } else {
        Launched(start, AsSession(Resetting));
        connectThreadDone := false;
        connectThread := Some(Opening);
        ok := false;
      }
    }

    /** Lines 190-200. */
    method AfterAttempt(ghost start: Session) returns (ok: bool)
      requires ConnectInv(AsSession(CheckingDone)) && Leads(start, AsSession(CheckingDone))
      modifies this`connecting, this`connectThread
      ensures ConnectInv(AsSession(if ok then Ready else Idle)) && Leads(start, AsSession(if ok then Ready else Idle))
      ensures ok <==> connectThreadDone && connected
      ensures connectThreadDone <==> connectThread == None
    {
      if !connectThreadDone {
        StillTrying(start, AsSession(CheckingDone));
        return false;
      }
      Joined(start, AsSession(CheckingDone));
      connecting := false;
      connectThread := None;
      ok := connected;
    }

    /** Sending the packet and waiting for its receipt.  `arrival` is what the server sends while the
        caller waits, after it has processed this very SEND.  True exactly if the reply at the head of
        the queue is a RECEIPT with this number; every failure but a wrong number disconnects. */
    method SendAndWait(writeOk: bool, arrival: Option<Envelope>) returns (ok: bool)
      requires arrival.Some? ==> Deliverable(OnTheWire(Counted(AsSession(Ready))), sends + 1, arrival.value)
      modifies this
      ensures receipt == (old(receipt) + 1) % 0x1_0000_0000 && sends == old(sends) + 1
      ensures var queue := Expected(old(replyQueue), arrival);
              && (ok <==> writeOk && old(socketOpen) && queue != []
                          && queue[0].reply.command == "RECEIPT" && "receipt-id" in queue[0].reply.headers
                          && queue[0].reply.headers["receipt-id"] == Decimal(receipt))
              && (writeOk && old(socketOpen) && queue != [] ==> replyQueue == queue[1..])
              && (if writeOk && old(socketOpen) && queue != []
                     && queue[0].reply.command == "RECEIPT" && "receipt-id" in queue[0].reply.headers
                  then connected == old(connected) && socketOpen
                  else !connected && !socketOpen)
      ensures acknowledged == old(acknowledged) + (if ok then {sends} else {})
      ensures writeOk && old(socketOpen) && old(replyQueue) == [] && arrival.Some? ==> sends in processed
      ensures Leads(old(AsSession(Ready)), AsSession(Idle))
    {
      ghost var start := AsSession(Ready);
      var sent := Send(writeOk);
      if !sent {
        return false;
      }
      var reply := NextReply(start, arrival);
      if reply.None? {
        return false;
      }
      ok := Compare(start, reply.value);
    }

    /** The case for which the handshake is there: nothing is left over, and the RECEIPT of this very SEND
        ends the wait. */
    method SendAcknowledged(arrival: Envelope) returns (ok: bool)
      requires receipt == sends % RECEIPT_MODULUS && socketOpen && replyQueue == []
      requires Deliverable(OnTheWire(Counted(AsSession(Ready))), sends + 1, arrival)
      requires arrival.reply.command == "RECEIPT" && arrival.about == sends + 1
      modifies this
      ensures ok && sends == old(sends) + 1 && sends in acknowledged && sends in processed && replyQueue == []
    {
      OwnNumber(sends);
      ok := SendAndWait(true, Some(arrival));
    }

    /** The packet goes to the socket under the next receipt number. */
    method Send(writeOk: bool) returns (sent: bool)
      modifies this`receipt, this`sends, this`written, this`connected, this`socketOpen, this`record
      ensures sent == (writeOk && old(socketOpen)) && (sent ==> connected == old(connected))
      ensures socketOpen == sent && (!sent ==> !connected)
      ensures receipt == (old(receipt) + 1) % RECEIPT_MODULUS && sends == old(sends) + 1
      ensures sent ==> AsSession(Looking(sends)) == OnTheWire(Counted(old(AsSession(Ready))))
      ensures Leads(old(AsSession(Ready)), AsSession(if sent then Looking(sends) else Idle))
    {
      ghost var start := AsSession(Ready);
      Start(start);
      Numbered(start, start);
      receipt := (receipt + 1) % RECEIPT_MODULUS;
      sends := sends + 1;
      sent := Write(start, writeOk);
    }

    method Write(ghost start: Session, writeOk: bool) returns (sent: bool)
      requires Leads(start, AsSession(Writing(sends)))
      modifies this`written, this`connected, this`socketOpen, this`record
      ensures sent == (writeOk && old(socketOpen))
      ensures sent ==> AsSession(Looking(sends)) == OnTheWire(old(AsSession(Writing(sends))))
      ensures !sent ==> !connected && !socketOpen
      ensures Leads(start, AsSession(if sent then Looking(sends) else Idle))
    {
      ghost var before := AsSession(Writing(sends));
      if !writeOk || !socketOpen {
        WriteFails(start, before, writeOk);
        Disconnect();
        return false;
      }
      WriteSucceeds(start, before);
      written := written + {sends};
      record := record.(owed := record.owed + {sends});
      sent := true;
    }

    /** The head of the queue, or the reply that ends the wait, or nothing when it times out. */
    method NextReply(ghost start: Session, arrival: Option<Envelope>) returns (reply: Option<Envelope>)
      requires socketOpen && sends in written && Leads(start, AsSession(Looking(sends)))
      requires arrival.Some? ==> Deliverable(AsSession(Looking(sends)), sends, arrival.value)
      modifies this`replyQueue, this`connected, this`socketOpen, this`processed, this`record
      ensures var queue := Expected(old(replyQueue), arrival);
              if queue == [] then reply == None else reply == Some(queue[0]) && replyQueue == queue[1..]
      ensures old(replyQueue) == [] && arrival.Some? ==> sends in processed
      ensures if reply == None then !connected && !socketOpen else connected == old(connected) && socketOpen
      ensures Leads(start, AsSession(match reply case None => Idle case Some(e) => Comparing(sends, e)))
    {
      if replyQueue == [] {
        reply := Await(start, arrival);
      } else {
        TakesHead(start, AsSession(Looking(sends)));
        reply := Some(replyQueue[0]);
        var head := PopReply();
      }
    }

    /** The wait on an empty queue. */
    method Await(ghost start: Session, arrival: Option<Envelope>) returns (reply: Option<Envelope>)
      requires socketOpen && sends in written && Leads(start, AsSession(Looking(sends))) && replyQueue == []
      requires arrival.Some? ==> Deliverable(AsSession(Looking(sends)), sends, arrival.value)
      modifies this`replyQueue, this`connected, this`socketOpen, this`processed, this`record
      ensures reply == arrival && replyQueue == [] && (arrival.Some? ==> sends in processed)
      ensures if reply == None then !connected && !socketOpen else connected == old(connected) && socketOpen
      ensures Leads(start, AsSession(match reply case None => Idle case Some(e) => Comparing(sends, e)))
    {
      if arrival.None? {
        TimesOut(start, AsSession(Looking(sends)));
        Disconnect();
        return None;
      }
      var head := ReplyComes(start, arrival.value);
      reply := Some(head);
    }

    /** The server processes the SEND, and what it sends then is taken. */
    method ReplyComes(ghost start: Session, e: Envelope) returns (head: Envelope)
      requires socketOpen && sends in written && Leads(start, AsSession(Looking(sends))) && replyQueue == []
      requires Deliverable(AsSession(Looking(sends)), sends, e)
      modifies this`replyQueue, this`processed, this`record
      ensures head == e && replyQueue == [] && sends in processed
      ensures Leads(start, AsSession(Comparing(sends, e)))
    {
      TakesArrival(start, AsSession(Looking(sends)), sends, e.reply, e.about);
      processed := processed + {sends};
      QueueReply(e);
      head := replyQueue[0];
      var reply := PopReply();
    }

    method Compare(ghost start: Session, envelope: Envelope) returns (ok: bool)
      requires Leads(start, AsSession(Comparing(sends, envelope)))
      modifies this`connected, this`socketOpen, this`acknowledged
      ensures ok <==> ReceiptId(envelope.reply) == Some(Decimal(receipt))
      ensures if ReceiptId(envelope.reply) == None then !connected && !socketOpen
              else connected == old(connected) && socketOpen == old(socketOpen)
      ensures acknowledged == old(acknowledged) + (if ok then {sends} else {})
      ensures Leads(start, AsSession(Idle))
    {
      var reply := envelope.reply;
      Compares(start, AsSession(Comparing(sends, envelope)));
      if reply.command != "RECEIPT" {
        Disconnect();
        return false;
      }
      if "receipt-id" !in reply.headers {
        Disconnect();
        return false;
      }
      ok := Decimal(receipt) == reply.headers["receipt-id"];
      if ok {
        acknowledged := acknowledged + {sends};
      }
    }
  }

  /** What there is to take: the queue, or else what comes during the wait. */
  function Expected(queue: seq<Envelope>, arrival: Option<Envelope>): seq<Envelope> {
    if queue == [] && arrival.Some? then [arrival.value] else queue
  }
}
