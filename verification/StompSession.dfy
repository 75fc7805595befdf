/**
 Connecting and acknowledging in output_stream_stomp.cpp as a step transition system: the one
 caller inside `do_write`, the connect thread, the reader thread and the server.

 Every connection has a number.  A server answers a connection on that connection, and the queue of
 replies survives it: nothing clears `m_reply_queue` when the socket is closed.
 */
module StompSessions {
  import opened Wrappers
  import opened Text
  import opened Numbers
  import opened StompFrames

  const RECEIPT_MODULUS: nat := 0x1_0000_0000

  /** A queued reply with its origin: the connection it came over and, for a receipt, the SEND it
      acknowledges.  The code sees the reply only. */
  datatype Envelope = Envelope(reply: Reply, connection: nat, about: nat)

  /** Where the caller is in `connect` and `do_write`; `n` counts the sends. */
  datatype CallerPc =
    | Idle
    | Testing            // 188: m_connected?
    | Exchanging         // 189: m_connecting.exchange(true)
    | CheckingDone       // 190
    | Clearing           // 191: m_connecting = false
    | Joining            // 192
    | Rechecking         // 193
    | Resetting          // 204: m_connect_thread_done = false
    | Launching          // 205: assignment to m_connect_thread
    | Ready              // 218-245
    | Writing(n: nat)    // 267
    | Looking(n: nat)    // 274
    | Waiting(n: nat)    // 277
    | Comparing(n: nat, envelope: Envelope) // 288-301
    | Aborted            // assignment to a joinable std::thread

  /** Where the connect thread is. */
  datatype ThreadPc =
    | Opening            // 113
    | Greeting           // 136, and the start of the reader thread
    | Checking           // 147
    | Awaiting           // 150
    | Failing            // 138, 153 or 162
    | Marking            // 167
    | Finished

  /** The latest connection: whether its socket is open, which SENDs written on it are not
      acknowledged yet, whether the server has sent CONNECTED and ERROR, how many replies were queued
      when it was opened, and how many have been taken from the queue since. */
  datatype Link = Link(number: nat, open: bool, owed: set<nat>, greeted: bool, refused: bool, stale: nat, taken: nat)

  /** `thread` is set while `m_connect_thread` is joinable. */
  datatype Session = Session(
    connected: bool,
    connecting: bool,
    done: bool,
    thread: Option<ThreadPc>,
    receipt: nat,
    replies: seq<Envelope>,
    caller: CallerPc,
    sends: nat,
    written: set<nat>,
    processed: set<nat>,
    acknowledged: set<nat>,
    link: Link)

  datatype Action =
    | Call
    | CallerStep(ok: bool)    // ok: the socket write succeeds, or the wait ends with a reply
    | ThreadStep(ok: bool)    // ok: connected, written, or a reply came in time
    | Arrive(reply: Reply, about: nat) // the reader thread queues a reply
    | ReaderFails             // the reader thread disconnects
    | Process(n: nat)         // the server processes a SEND

  const INITIAL := Session(false, false, false, None, 0, [], Idle, 0, {}, {}, {},
                           Link(0, false, {}, false, false, 0, 0))

  /** `disconnect()` */
  function Close(s: Session): Session {
    s.(connected := false, link := s.link.(open := false))
  }

  function GiveUp(s: Session): Session {
    Close(s).(caller := Idle)
  }

  function Fail(s: Session): Session {
    s.(caller := Idle)
  }

  /** `pop_front()` */
  function Take(s: Session): Session
    requires s.replies != []
  {
    s.(replies := s.replies[1..], link := s.link.(taken := s.link.taken + 1))
  }

  /** The id a RECEIPT frame carries. */
  function ReceiptId(r: Reply): Option<string> {
    if r.command == "RECEIPT" && "receipt-id" in r.headers then Some(r.headers["receipt-id"]) else None
  }

  function StepCaller(s: Session, ok: bool): Option<Session> {
    match s.caller
    case Testing => Some(s.(caller := if s.connected then Ready else Exchanging))
    case Exchanging => Some(s.(connecting := true, caller := if s.connecting then CheckingDone else Resetting))
    case CheckingDone => Some(if s.done then s.(caller := Clearing) else Fail(s))
    case Clearing => Some(s.(connecting := false, caller := Joining))
    case Joining => if s.thread == Some(Finished) then Some(s.(thread := None, caller := Rechecking)) else None
    case Rechecking => Some(if s.connected then s.(caller := Ready) else Fail(s))
    case Resetting => Some(s.(done := false, caller := Launching))
    case Launching =>
      Some(if s.thread.Some? then s.(caller := Aborted) else s.(thread := Some(Opening), caller := Idle))
    case Ready =>
      Some(s.(receipt := (s.receipt + 1) % RECEIPT_MODULUS, sends := s.sends + 1, caller := Writing(s.sends + 1)))
    case Writing(n) =>
      Some(if ok && s.link.open then
             s.(written := s.written + {n}, link := s.link.(owed := s.link.owed + {n}), caller := Looking(n))
           else GiveUp(s))
    case Looking(n) =>
      Some(if s.replies == [] then s.(caller := Waiting(n)) else Take(s).(caller := Comparing(n, s.replies[0])))
    case Waiting(n) =>
      if !ok then Some(GiveUp(s))
      else if s.replies == [] then None
      else Some(Take(s).(caller := Comparing(n, s.replies[0])))
    case Comparing(n, e) =>
      Some(match ReceiptId(e.reply)
           case None => GiveUp(s)
           case Some(id) => if id == Decimal(s.receipt) then Fail(s).(acknowledged := s.acknowledged + {n}) else Fail(s))
    case _ => None
  }

  function SkipSpaces(s: string): string {
    if s != "" && (s[0] == ' ' || '\t' <= s[0] <= '\r') then SkipSpaces(s[1..]) else s
  }

  /** `strtol` stops at the end of the string. */
  predicate StrtolReadsAll(s: string) {
    var t := SkipSpaces(s);
    var digits := if t != "" && (t[0] == '+' || t[0] == '-') then t[1..] else t;
    s == "" || (digits != "" && AllDigits(digits))
  }

  /** CONNECTED, version 1.1, and no heart-beats asked of the client. */
  predicate Welcome(r: Reply) {
    && r.command == "CONNECTED"
    && "version" in r.headers && r.headers["version"] == "1.1"
    && ("heart-beat" in r.headers ==>
          var hb := r.headers["heart-beat"];
          match Find(hb, ',', 0)
          case None => false
          case Some(comma) => hb[comma + 1..] == "0" && StrtolReadsAll(hb[..comma]))
  }

  /** The connect thread takes the head of the queue for the answer to its CONNECT. */
  function Judge(s: Session): Session
    requires s.replies != []
  {
    if Welcome(s.replies[0].reply) then Take(s).(connected := true, thread := Some(Marking))
    else Take(s).(thread := Some(Failing))
  }

  /** A new connection, read by a new reader thread. */
  function NextLink(s: Session): Link {
    Link(s.link.number + 1, true, {}, false, false, |s.replies|, 0)
  }

  function StepThread(s: Session, ok: bool): Option<Session> {
    match s.thread
    case None => None
    case Some(pc) =>
      match pc
      case Opening => Some(if ok then s.(thread := Some(Greeting)) else s.(done := true, thread := Some(Finished)))
      case Greeting =>
        Some(if ok then s.(thread := Some(Checking), link := NextLink(s)) else s.(thread := Some(Failing)))
      case Checking => Some(if s.replies == [] then s.(thread := Some(Awaiting)) else Judge(s))
      case Awaiting =>
        if !ok then Some(s.(thread := Some(Failing)))
        else if s.replies == [] then None
        else Some(Judge(s))
      case Failing => Some(Close(s).(done := true, thread := Some(Finished)))
      case Marking => Some(s.(done := true, thread := Some(Finished)))
      case Finished => None
  }

  /** A reply is queued, and the connection's record kept. */
  function Queue(s: Session, reply: Reply, about: nat): Session {
    s.(replies := s.replies + [Envelope(reply, s.link.number, about)],
       link := s.link.(greeted := s.link.greeted || reply.command == "CONNECTED",
                       refused := s.link.refused || reply.command == "ERROR",
                       owed := if reply.command == "RECEIPT" then s.link.owed - {about} else s.link.owed))
  }

  function Step(s: Session, a: Action): Option<Session> {
    match a
    case Call => if s.caller == Idle then Some(s.(caller := Testing)) else None
    case CallerStep(ok) => StepCaller(s, ok)
    case ThreadStep(ok) => StepThread(s, ok)
    case Arrive(r, n) => if s.link.open then Some(Queue(s, r, n)) else None
    case ReaderFails => Some(Close(s))
    case Process(n) => if n in s.written then Some(s.(processed := s.processed + {n})) else None
  }

  /** What a STOMP 1.1 server sends to a client without subscriptions: CONNECTED once and first, a
      RECEIPT once for each SEND of this connection it has processed, an ERROR last (sections
      "Connecting", "RECEIPT" and "ERROR"). */
  predicate Conformant(s: Session, a: Action) {
    a.Arrive? ==>
      && !s.link.refused
      && (|| (a.reply.command == "CONNECTED" && !s.link.greeted)
          || (a.reply.command == "RECEIPT" && s.link.greeted && a.about in s.link.owed && a.about in s.processed
              && ReceiptId(a.reply) == Some(Decimal(a.about % RECEIPT_MODULUS)))
          || a.reply.command == "ERROR")
  }

  /** The receipt of a SEND. */
  function ReceiptFor(n: nat): Reply {
    Reply("RECEIPT", map["receipt-id" := Decimal(n % RECEIPT_MODULUS)], "")
  }

  function Exec(s: Session, schedule: seq<Action>): Option<Session>
    decreases |schedule|
  {
    if schedule == [] then Some(s) else
    match Step(s, schedule[0])
    case None => None
    case Some(next) => Exec(next, schedule[1..])
  }

  predicate ConformantRun(s: Session, schedule: seq<Action>)
    decreases |schedule|
  {
    schedule != [] && Step(s, schedule[0]).Some? ==>
      Conformant(s, schedule[0]) && ConformantRun(Step(s, schedule[0]).value, schedule[1..])
  }

  // ---------- which server is accepted ----------

  predicate AllSpaces(s: string) {
    forall i :: 0 <= i < |s| ==> s[i] == ' ' || 9 <= s[i] as int <= 13
  }

  lemma {:induction false} SpacesSkipped(spaces: string, rest: string)
    requires AllSpaces(spaces) && (rest == "" || !AllSpaces(rest[..1]))
    ensures SkipSpaces(spaces + rest) == rest
    decreases |spaces|
  {
    if spaces == "" {
      assert spaces + rest == rest;
    } else {
      assert (spaces + rest)[1..] == spaces[1..] + rest;
      SpacesSkipped(spaces[1..], rest);
    }
  }

  lemma {:induction false} SpacesAre(s: string) returns (spaces: string)
    ensures AllSpaces(spaces) && s == spaces + SkipSpaces(s)
    decreases |s|
  {
    if SkipSpaces(s) == s {
      spaces := "";
    } else {
      var more := SpacesAre(s[1..]);
      spaces := [s[0]] + more;
    }
  }

  /** What `strtol` reads to the end: nothing at all, or white space, a sign and digits. */
  lemma StrtolReadsAllIff(s: string)
    ensures StrtolReadsAll(s)
            <==> s == "" || exists spaces, sign, digits ::
                              && s == spaces + (sign + digits) && AllSpaces(spaces)
                              && (sign == "" || sign == "+" || sign == "-") && digits != "" && AllDigits(digits)
  {
    if StrtolReadsAll(s) && s != "" {
      var spaces := SpacesAre(s);
      var t := SkipSpaces(s);
      var signed := t[0] == '+' || t[0] == '-';
      var sign, digits := if signed then t[..1] else "", if signed then t[1..] else t;
      assert s == spaces + (sign + digits) && AllDigits(digits);
    }
    forall spaces, sign, digits |
        && s == spaces + (sign + digits) && AllSpaces(spaces)
        && (sign == "" || sign == "+" || sign == "-") && digits != "" && AllDigits(digits)
      ensures StrtolReadsAll(s)
    {
      var t := sign + digits;
      assert t[0] == if sign == "" then digits[0] else sign[0];
      SpacesSkipped(spaces, t);
      assert t[|sign|..] == digits;
    }
  }

  /** No heart-beat header, or one that asks for none: some number, a comma and 0. */
  lemma WelcomeIff(r: Reply)
    ensures Welcome(r)
            <==> && r.command == "CONNECTED"
                 && "version" in r.headers && r.headers["version"] == "1.1"
                 && ("heart-beat" in r.headers ==>
                       exists sx :: r.headers["heart-beat"] == sx + ",0" && ',' !in sx && StrtolReadsAll(sx))
  {
    if "heart-beat" in r.headers {
      var hb := r.headers["heart-beat"];
      FindFirst(hb, ',', 0);
      match Find(hb, ',', 0) {
        case None =>
          assert hb[0..] == hb;
        case Some(comma) =>
          assert hb[0..comma] == hb[..comma];
          assert hb == hb[..comma] + ([','] + hb[comma + 1..]);
          assert [','] + "0" == ",0";
      }
      forall sx | hb == sx + ",0" && ',' !in sx ensures Find(hb, ',', 0) == Some(|sx|) && hb[|sx| + 1..] == "0" {
        assert sx + [','] + "0" == hb;
        FindAfter(sx, "0", ',');
      }
    }
  }

  /** A whole attempt to connect that finds no old reply in the queue: whether the socket connects, whether
      CONNECT can be written, and the reply that comes in time. */
  function Attempt(socket: bool, write: bool, reply: Option<Reply>): seq<Action> {
    if !socket then [ThreadStep(false)]
    else if !write then [ThreadStep(true), ThreadStep(false), ThreadStep(true)]
    else
      match reply
      case None => [ThreadStep(true), ThreadStep(true), ThreadStep(true), ThreadStep(false), ThreadStep(true)]
      case Some(r) =>
        [ThreadStep(true), ThreadStep(true), ThreadStep(true), Arrive(r, 0), ThreadStep(true), ThreadStep(true)]
  }

  lemma ExecCons(s: Session, a: Action, rest: seq<Action>)
    requires Step(s, a).Some?
    ensures Exec(s, [a] + rest) == Exec(Step(s, a).value, rest)
  {
    assert ([a] + rest)[1..] == rest;
  }

  lemma Greeted(s: Session, r: Reply)
    requires s.thread == Some(Opening) && s.replies == [] && !s.connected
    ensures Exec(s, Attempt(true, true, Some(r))).Some?
    ensures var end := Exec(s, Attempt(true, true, Some(r))).value;
            && end.thread == Some(Finished) && end.done && end.replies == []
            && end.connected == end.link.open == Welcome(r)
  {
    var go := ThreadStep(true);
    var s3 := s.(thread := Some(Awaiting), link := NextLink(s));
    ExecCons(s, go, [go, go, Arrive(r, 0), go, go]);
    ExecCons(s.(thread := Some(Greeting)), go, [go, Arrive(r, 0), go, go]);
    ExecCons(s3.(thread := Some(Checking)), go, [Arrive(r, 0), go, go]);
    ExecCons(s3, Arrive(r, 0), [go, go]);
    var s4 := Queue(s3, r, 0);
    ExecCons(s4, go, [go]);
    ExecCons(Judge(s4), go, []);
  }

  lemma NotGreeted(s: Session, socket: bool, write: bool)
    requires s.thread == Some(Opening) && s.replies == [] && !s.connected && !s.link.open
    ensures Exec(s, Attempt(socket, write, None)).Some?
    ensures var end := Exec(s, Attempt(socket, write, None)).value;
            end.thread == Some(Finished) && end.done && end.replies == [] && !end.connected && !end.link.open
  {
    var go, fail := ThreadStep(true), ThreadStep(false);
    if !socket {
      ExecCons(s, fail, []);
    } else if !write {
      ExecCons(s, go, [fail, go]);
      ExecCons(s.(thread := Some(Greeting)), fail, [go]);
      ExecCons(s.(thread := Some(Failing)), go, []);
    } else {
      var s3 := s.(thread := Some(Awaiting), link := NextLink(s));
      ExecCons(s, go, [go, go, fail, go]);
      ExecCons(s.(thread := Some(Greeting)), go, [go, fail, go]);
      ExecCons(s3.(thread := Some(Checking)), go, [fail, go]);
      ExecCons(s3, fail, [go]);
      ExecCons(s3.(thread := Some(Failing)), go, []);
    }
  }

  /** The thread ends connected, with the socket open, exactly if all goes well and the reply is CONNECTED
      with version 1.1 and no heart-beat header or one that asks the client for none; a socket it has opened
      is closed otherwise. */
  lemma ConnectsIff(s: Session, socket: bool, write: bool, reply: Option<Reply>)
    requires s.thread == Some(Opening) && s.replies == [] && !s.connected && !s.link.open
    ensures Exec(s, Attempt(socket, write, reply)).Some?
    ensures var end := Exec(s, Attempt(socket, write, reply)).value;
            && end.thread == Some(Finished) && end.done && end.replies == [] && end.link.open == end.connected
            && (end.connected
                <==> && socket && write && reply.Some?
                     && reply.value.command == "CONNECTED"
                     && "version" in reply.value.headers && reply.value.headers["version"] == "1.1"
                     && ("heart-beat" in reply.value.headers ==>
                           exists sx :: reply.value.headers["heart-beat"] == sx + ",0" && ',' !in sx && StrtolReadsAll(sx)))
  {
    if socket && write && reply.Some? {
      WelcomeIff(reply.value);
      Greeted(s, reply.value);
    } else {
      assert Attempt(socket, write, reply) == Attempt(socket, write, None);
      NotGreeted(s, socket, write);
    }
  }

  lemma IntervalReads(n: nat)
    ensures StrtolReadsAll(Decimal(n)) && ',' !in Decimal(n)
  {
    ValueOfDecimal(n);
  }

  /** Once its CONNECT is written: a server that speaks version 1.1 and asks for no heart-beats is accepted,
      whatever it offers itself. */
  lemma ServerAccepted(s: Session, headers: map<string, string>, body: string, n: nat)
    requires s.thread == Some(Opening) && s.replies == [] && !s.connected && !s.link.open
    requires "version" in headers && headers["version"] == "1.1"
    requires "heart-beat" in headers ==> headers["heart-beat"] == Decimal(n) + ",0"
    ensures var end := Exec(s, Attempt(true, true, Some(Reply("CONNECTED", headers, body))));
            end.Some? && end.value.connected && end.value.link.open
  {
    IntervalReads(n);
    ConnectsIff(s, true, true, Some(Reply("CONNECTED", headers, body)));
  }

  /** One that asks for some, whose header has no comma, or that speaks another version, is refused. */
  lemma ServerRefused(s: Session, headers: map<string, string>, body: string, sx: string, sy: string)
    requires s.thread == Some(Opening) && s.replies == [] && !s.connected && !s.link.open
    requires || "version" !in headers || headers["version"] != "1.1"
             || ("heart-beat" in headers && ',' !in headers["heart-beat"])
             || ("heart-beat" in headers && headers["heart-beat"] == sx + "," + sy && ',' !in sx && sy != "0")
    ensures var end := Exec(s, Attempt(true, true, Some(Reply("CONNECTED", headers, body))));
            end.Some? && !end.value.connected && !end.value.link.open
  {
    Greeted(s, Reply("CONNECTED", headers, body));
    if "heart-beat" in headers && headers["heart-beat"] == sx + "," + sy && ',' !in sx { FindAfter(sx, sy, ','); }
  }

  // ---------- the connect thread ----------

  /** How `m_connecting` and the thread belong together at each line. */
  predicate ConnectInv(s: Session) {
    && (s.thread.Some? ==> (s.done <==> s.thread.value == Finished))
    && match s.caller
       case CheckingDone => s.connecting && s.thread.Some?
       case Clearing => s.connecting && s.thread == Some(Finished)
       case Joining => !s.connecting && s.thread == Some(Finished)
       case Rechecking => !s.connecting && s.thread == None
       case Resetting => s.connecting && s.thread == None
       case Launching => s.connecting && s.thread == None && !s.done
       case Aborted => false
       case _ => s.connecting <==> s.thread.Some?
  }

  lemma CallerConnects(s: Session, ok: bool)
    requires ConnectInv(s) && StepCaller(s, ok).Some?
    ensures ConnectInv(StepCaller(s, ok).value)
  {
  }

  lemma ThreadConnects(s: Session, ok: bool)
    requires ConnectInv(s) && StepThread(s, ok).Some?
    ensures ConnectInv(StepThread(s, ok).value)
  {
  }

  lemma ConnectStep(s: Session, a: Action)
    requires ConnectInv(s) && Step(s, a).Some?
    ensures ConnectInv(Step(s, a).value)
  {
    match a
    case CallerStep(ok) => CallerConnects(s, ok);
    case ThreadStep(ok) => ThreadConnects(s, ok);
    case _ =>
  }

  lemma {:induction false} ConnectRun(s: Session, schedule: seq<Action>)
    requires ConnectInv(s) && Exec(s, schedule).Some?
    ensures ConnectInv(Exec(s, schedule).value)
    decreases |schedule|
  {
    if schedule != [] {
      ConnectStep(s, schedule[0]);
      ConnectRun(Step(s, schedule[0]).value, schedule[1..]);
    }
  }

  /** Over every run: between calls `m_connecting` holds exactly when an unjoined connect thread
      exists; a joinable thread is never overwritten; and joining never blocks. */
  lemma ConnectThreadIsOwned(schedule: seq<Action>)
    requires Exec(INITIAL, schedule).Some?
    ensures var end := Exec(INITIAL, schedule).value;
            && end.caller != Aborted
            && (end.caller == Idle ==> (end.connecting <==> end.thread.Some?))
            && (end.caller == Launching ==> end.thread == None)
            && (end.caller == Joining ==> StepCaller(end, true).Some?)
  {
    ConnectRun(INITIAL, schedule);
  }

  // ---------- receipts ----------

  /** A queued RECEIPT names a processed SEND by its number modulo 2^32. */
  predicate Named(s: Session, e: Envelope) {
    e.reply.command == "RECEIPT" ==>
      e.about in s.processed && ReceiptId(e.reply) == Some(Decimal(e.about % RECEIPT_MODULUS))
  }

  ghost predicate ReceiptInv(s: Session) {
    && s.receipt == s.sends % RECEIPT_MODULUS
    && s.processed <= s.written && s.acknowledged <= s.written
    && (forall n :: n in s.written ==> 1 <= n <= s.sends)
    && (forall e :: e in s.replies ==> Named(s, e))
    && (match s.caller
        case Writing(n) => n == s.sends && 1 <= n
        case Looking(n) => n == s.sends && n in s.written
        case Waiting(n) => n == s.sends && n in s.written
        case Comparing(n, e) => n == s.sends && n in s.written && Named(s, e)
        case _ => true)
    && (s.sends <= RECEIPT_MODULUS ==> s.acknowledged <= s.processed)
  }

  lemma NoWrap(m: nat, n: nat)
    requires 1 <= m <= n <= RECEIPT_MODULUS && m % RECEIPT_MODULUS == n % RECEIPT_MODULUS
    ensures m == n
  {
  }

  lemma ComparingReceipt(s: Session, ok: bool)
    requires ReceiptInv(s) && s.caller.Comparing? && StepCaller(s, ok).Some?
    ensures ReceiptInv(StepCaller(s, ok).value)
  {
    var s', n, e := StepCaller(s, ok).value, s.caller.n, s.caller.envelope;
    NamedStays(s, s');
    if s'.acknowledged != s.acknowledged && s.sends <= RECEIPT_MODULUS {
      DecimalInjective(e.about % RECEIPT_MODULUS, s.receipt);
      NoWrap(e.about, n);
    }
  }

  /** What is queued stays named while the processed sends only grow. */
  lemma NamedStays(s: Session, s': Session)
    requires forall e :: e in s.replies ==> Named(s, e)
    requires s.processed <= s'.processed
    requires forall e :: e in s'.replies ==> e in s.replies
    ensures forall e :: e in s'.replies ==> Named(s', e)
  {
  }

  lemma DequeueReceipt(s: Session, ok: bool)
    requires ReceiptInv(s) && (s.caller.Looking? || s.caller.Waiting?) && StepCaller(s, ok).Some?
    ensures ReceiptInv(StepCaller(s, ok).value)
  {
    NamedStays(s, StepCaller(s, ok).value);
    assert s.replies != [] ==> s.replies[0] in s.replies;
  }

  /** Numbering a SEND and writing it. */
  lemma SendReceipt(s: Session, ok: bool)
    requires ReceiptInv(s) && (s.caller.Ready? || s.caller.Writing?)
    ensures ReceiptInv(StepCaller(s, ok).value)
  {
    NamedStays(s, StepCaller(s, ok).value);
  }

  /** The lines of `connect`. */
  lemma ConnectReceipt(s: Session, ok: bool)
    requires ReceiptInv(s) && StepCaller(s, ok).Some?
    requires !s.caller.Comparing? && !s.caller.Looking? && !s.caller.Waiting? && !s.caller.Ready? && !s.caller.Writing?
    ensures ReceiptInv(StepCaller(s, ok).value)
  {
    var s' := StepCaller(s, ok).value;
    NamedStays(s, s');
    assert s'.sends == s.sends && s'.receipt == s.receipt;
  }

  /** Nothing but the connection changes. */
  lemma SameReceipts(s: Session, s': Session)
    requires ReceiptInv(s) && s'.receipt == s.receipt && s'.caller == s.caller && s'.sends == s.sends
    requires s'.written == s.written && s'.processed == s.processed && s'.acknowledged == s.acknowledged
    requires forall e :: e in s'.replies ==> e in s.replies
    ensures ReceiptInv(s')
  {
    NamedStays(s, s');
  }

  lemma IdleReceipt(s: Session, ok: bool)
    requires ReceiptInv(s) && StepThread(s, ok).Some?
    requires s.thread != Some(Checking) || s.replies == []
    requires s.thread != Some(Awaiting) || !ok
    ensures ReceiptInv(StepThread(s, ok).value)
  {
    SameReceipts(s, StepThread(s, ok).value);
  }

  lemma JudgeReceipt(s: Session)
    requires ReceiptInv(s) && s.replies != []
    ensures ReceiptInv(Judge(s))
  {
    SameReceipts(s, Judge(s));
  }

  lemma ThreadReceipt(s: Session, ok: bool)
    requires ReceiptInv(s) && StepThread(s, ok).Some?
    ensures ReceiptInv(StepThread(s, ok).value)
  {
    if (s.thread == Some(Checking) && s.replies != []) || (s.thread == Some(Awaiting) && ok) {
      JudgeReceipt(s);
    } else {
      IdleReceipt(s, ok);
    }
  }

  lemma ProcessReceipt(s: Session, n: nat)
    requires ReceiptInv(s) && n in s.written
    ensures ReceiptInv(s.(processed := s.processed + {n}))
  {
    var s' := s.(processed := s.processed + {n});
    NamedStays(s, s');
    assert s.caller.Comparing? ==> Named(s', s.caller.envelope);
  }

  lemma ArriveReceipt(s: Session, r: Reply, n: nat)
    requires ReceiptInv(s) && Conformant(s, Arrive(r, n))
    ensures ReceiptInv(Queue(s, r, n))
  {
    var e := Envelope(r, s.link.number, n);
    assert Named(s, e);
    assert forall x :: x in s.replies + [e] <==> x in s.replies || x == e;
  }

  lemma CallerReceipt(s: Session, ok: bool)
    requires ReceiptInv(s) && StepCaller(s, ok).Some?
    ensures ReceiptInv(StepCaller(s, ok).value)
  {
    if s.caller.Comparing? {
      ComparingReceipt(s, ok);
    } else if s.caller.Looking? || s.caller.Waiting? {
      DequeueReceipt(s, ok);
    } else if s.caller.Ready? || s.caller.Writing? {
      SendReceipt(s, ok);
    } else {
      ConnectReceipt(s, ok);
    }
  }

  lemma ReceiptStep(s: Session, a: Action)
    requires ReceiptInv(s) && Step(s, a).Some? && Conformant(s, a)
    ensures ReceiptInv(Step(s, a).value)
  {
    match a
    case CallerStep(ok) => CallerReceipt(s, ok);
    case ThreadStep(ok) => ThreadReceipt(s, ok);
    case Arrive(r, n) => ArriveReceipt(s, r, n);
    case Process(n) => ProcessReceipt(s, n);
    case ReaderFails => SameReceipts(s, Close(s));
    case Call => NamedStays(s, s.(caller := Testing));
  }

  lemma {:induction false} ReceiptRun(s: Session, schedule: seq<Action>)
    requires ReceiptInv(s) && Exec(s, schedule).Some? && ConformantRun(s, schedule)
    ensures ReceiptInv(Exec(s, schedule).value)
    decreases |schedule|
  {
    if schedule != [] {
      ReceiptStep(s, schedule[0]);
      ReceiptRun(Step(s, schedule[0]).value, schedule[1..]);
    }
  }

  /** With a conformant server and at most 2^32 sends, `do_write` returns true only for an event the
      server has processed, whatever replies of earlier connections are still queued. */
  lemma AcknowledgedIsProcessed(schedule: seq<Action>)
    requires Exec(INITIAL, schedule).Some? && ConformantRun(INITIAL, schedule)
    requires Exec(INITIAL, schedule).value.sends <= 0x1_0000_0000
    ensures var end := Exec(INITIAL, schedule).value; end.acknowledged <= end.processed
  {
    ReceiptRun(INITIAL, schedule);
  }

  // ---------- runs ----------

  ghost predicate Leads(s: Session, s': Session) {
    exists schedule :: Exec(s, schedule) == Some(s') && ConformantRun(s, schedule)
  }

  lemma {:induction false} ExecThen(s: Session, schedule: seq<Action>, a: Action)
    requires Exec(s, schedule).Some? && ConformantRun(s, schedule) && Conformant(Exec(s, schedule).value, a)
    ensures Exec(s, schedule + [a]) == Step(Exec(s, schedule).value, a) && ConformantRun(s, schedule + [a])
    decreases |schedule|
  {
    if schedule == [] {
      assert (schedule + [a])[1..] == [];
    } else {
      ExecThen(Step(s, schedule[0]).value, schedule[1..], a);
      assert (schedule + [a])[1..] == schedule[1..] + [a];
    }
  }

  lemma Start(s: Session)
    ensures Leads(s, s)
  {
    assert Exec(s, []) == Some(s);
  }

  lemma Then(s: Session, mid: Session, a: Action)
    requires Leads(s, mid) && Step(mid, a).Some? && Conformant(mid, a)
    ensures Leads(s, Step(mid, a).value)
  {
    var schedule :| Exec(s, schedule) == Some(mid) && ConformantRun(s, schedule);
    ExecThen(s, schedule, a);
    assert Exec(s, schedule + [a]).Some?;
  }
}
