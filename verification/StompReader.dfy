/** The reader thread of output_stream_stomp.cpp: a NUL-frame decoder over a fixed buffer that
    skips heartbeats (STOMP Protocol Specification 1.1, section "Heart-beating"). */
module StompReaders {
  import opened Wrappers
  import opened Text
  import opened StompFrames
  import LS = LineSplitters

  // ---------- one byte at a time ----------

  /** `alive` ends with the first rejected frame: the socket is closed, so nothing follows. */
  datatype Decoder = Decoder(partial: string, replies: seq<Reply>, alive: bool)

  function EndOfFrame(d: Decoder): Decoder {
    match ParseFrame(d.partial)
    case None => Decoder("", d.replies, false)
    case Some(r) => Decoder("", d.replies + [r], true)
  }

  function OnByte(d: Decoder, b: char): Decoder {
    if !d.alive then d
    else if b == '\0' then EndOfFrame(d)
    else if d.partial == "" && b == '\n' then d
    else d.(partial := d.partial + [b])
  }

  function OnBytes(d: Decoder, bytes: string): Decoder
    decreases |bytes|
  {
    if bytes == "" then d else OnBytes(OnByte(d, bytes[0]), bytes[1..])
  }

  /** Only the concatenation of the bytes matters, not how they were read. */
  lemma {:induction false} OnBytesConcat(d: Decoder, a: string, b: string)
    ensures OnBytes(d, a + b) == OnBytes(OnBytes(d, a), b)
    decreases |a|
  {
    if a == "" {
      assert a + b == b;
    } else {
      OnBytesConcat(OnByte(d, a[0]), a[1..], b);
      assert (a + b)[0] == a[0] && (a + b)[1..] == a[1..] + b;
    }
  }

  lemma {:induction false} DeadStaysDead(d: Decoder, bytes: string)
    requires !d.alive
    ensures OnBytes(d, bytes) == d
    decreases |bytes|
  {
    if bytes != "" { DeadStaysDead(d, bytes[1..]); }
  }

  /** A run of data bytes is appended as a whole. */
  lemma {:induction false} OnData(d: Decoder, data: string)
    requires d.alive && '\0' !in data && (d.partial != "" || data == "" || data[0] != '\n')
    ensures OnBytes(d, data) == d.(partial := d.partial + data)
    decreases |data|
  {
    if data != "" {
      var next := d.(partial := d.partial + [data[0]]);
      assert data == [data[0]] + data[1..];
      OnData(next, data[1..]);
      assert d.partial + data == next.partial + data[1..];
    } else {
      assert d.partial + data == d.partial;
    }
  }

  // ---------- the buffer loop ----------

  const BUFFER_SIZE := 1537

  class Reader {
    const buf: array<char>
    var partialReply: string
    var replyQueue: seq<Reply>
    var errorLog: seq<string>
    var connected: bool

    constructor ()
      ensures fresh(buf) && buf.Length == BUFFER_SIZE
      ensures State() == Decoder("", [], true) && errorLog == []
    {
      buf := new char[BUFFER_SIZE];
      partialReply, replyQueue, errorLog, connected := "", [], [], true;
    }

    function State(): Decoder
      reads this
    {
      Decoder(partialReply, replyQueue, connected)
    }

    /** Queue a well-formed frame; log the text of an ERROR frame line by line. */
    method HandleReply(frame: string) returns (ok: bool)
      modifies this`replyQueue, this`errorLog
      ensures ok <==> ParseFrame(frame).Some?
      ensures replyQueue == old(replyQueue) + (if ok then [ParseFrame(frame).value] else [])
      ensures ok && ParseFrame(frame).value.command == "ERROR" ==>
                errorLog == old(errorLog)
                            + [if "message" in ParseFrame(frame).value.headers
                               then "ERROR from server: " + ParseFrame(frame).value.headers["message"]
                               else "ERROR from server"]
                            + LS.Flushed(LS.Feed(LS.Progress([], ""), ParseFrame(frame).value.body))
      ensures !ok || ParseFrame(frame).value.command != "ERROR" ==> errorLog == old(errorLog)
    {
      var parsed := Parse(frame);
      if parsed.None? {
        return false;
      }
      var reply := parsed.value;
      if reply.command == "ERROR" {
        var ls := new LS.LineSplitter();
        ls.ReadAndForward(reply.body);
        ls.Flush();
        errorLog := errorLog + [ErrorText(reply)] + ls.received;
      }
      replyQueue := replyQueue + [reply];
      ok := true;
    }

    /** `read` puts the bytes of one read at the start of the buffer; a NUL is added behind them. */
    method Fill(data: string)
      requires |data| < buf.Length
      modifies buf
      ensures Holds(data)
    {
      for i := 0 to |data|
        invariant buf[..i] == data[..i]
      {
        buf[i] := data[i];
      }
      assert data[..|data|] == data;
      buf[|data|] := '\0';
    }

    /** The buffer holds these bytes and the NUL behind them. */
    predicate Holds(data: string)
      reads buf
    {
      |data| < buf.Length && buf[..|data|] == data && buf[|data|] == '\0'
    }

    /** `strchr` from `sod`, and the text it skips: the NUL behind the data stops it in the buffer. */
    method FindNul(sod: nat, data: string) returns (i: nat, text: string)
      requires sod <= |data| && Holds(data)
      ensures sod <= i <= |data| && (i < |data| ==> data[i] == '\0')
      ensures text == data[sod..i] && '\0' !in text
    {
      i, text := sod, "";
      while buf[i] != '\0'
        invariant sod <= i <= |data| && text == data[sod..i] && '\0' !in text
        decreases |data| - i
      {
        assert buf[i] == buf[..|data|][i];
        text := text + [buf[i]];
        i := i + 1;
      }
      assert i < |data| ==> buf[i] == buf[..|data|][i];
    }

    /** A NUL was found: the frame is complete.  When it is rejected the socket is closed. */
    method Complete() returns (ok: bool)
      requires connected
      modifies this
      ensures State() == EndOfFrame(old(State())) && ok == connected
    {
      ok := HandleReply(partialReply);
      partialReply := "";
      if !ok {
        connected := false;
        assert replyQueue == old(replyQueue);
      }
    }

    /** The loop over the bytes of one read: all of them pass through the one-byte machine, and
        what is left after a rejected frame is dropped. */
    method Decode(data: string)
      requires Holds(data) && connected
      modifies this
      ensures State() == OnBytes(old(State()), data)
    {
      assert data[0..] == data;
      DecodeLoop(data, OnBytes(State(), data));
    }

    /** The loop; `goal` is what the one-byte machine makes of all the data. */
    method DecodeLoop(data: string, ghost goal: Decoder)
      requires Holds(data) && connected && OnBytes(State(), data[0..]) == goal
      modifies this
      ensures State() == goal
    {
      var bytesLeft := |data|;
      var end := bytesLeft;
      var sod := 0;
      while bytesLeft != 0
        invariant 0 <= sod && bytesLeft == end - sod >= 0
        invariant Holds(data) && connected && OnBytes(State(), data[sod..]) == goal
        decreases bytesLeft
      {
        sod := SkipBeats(sod, data);
        bytesLeft := end - sod;
        if bytesLeft == 0 {
          continue;
        }
        var alive;
        sod, alive := TakeData(sod, data);
        if !alive {
          return;
        }
        bytesLeft := end - sod;
      }
      assert data[sod..] == "";
    }

    /** The data up to the next NUL are appended; at the NUL the frame is complete. */
    method TakeData(from: nat, data: string) returns (sod: nat, ok: bool)
      requires from < |data| && Holds(data) && connected && (partialReply == "" ==> data[from] != '\n')
      modifies this
      ensures ok == connected && from <= sod <= |data| && (ok ==> from < sod)
      ensures if ok then OnBytes(State(), data[sod..]) == OnBytes(old(State()), data[from..])
              else State() == OnBytes(old(State()), data[from..])
    {
      var i, text := FindNul(from, data);
      TakeSegment(State(), data, from, i);
      partialReply := partialReply + text;
      ok := true;
      if i != |data| {
        ok := Complete();
        if !ok {
          DeadStaysDead(State(), data[i + 1..]);
          return i, false;
        }
        i := i + 1;
      }
      sod := i;
      assert sod == |data| ==> data[sod..] == "";
    }

    /** Between frames, line feeds are heartbeats. */
    method SkipBeats(from: nat, data: string) returns (sod: nat)
      requires from <= |data| && Holds(data) && connected
      ensures from <= sod <= |data| && OnBytes(State(), data[sod..]) == OnBytes(State(), data[from..])
      ensures partialReply == "" && sod < |data| ==> data[sod] != '\n'
    {
      sod := from;
      var bytesLeft := |data| - sod;
      while partialReply == "" && bytesLeft != 0 && buf[sod] == '\n'
        invariant from <= sod <= |data| && bytesLeft == |data| - sod
        invariant OnBytes(State(), data[sod..]) == OnBytes(State(), data[from..])
        decreases bytesLeft
      {
        assert buf[sod] == buf[..|data|][sod];
        SkipBeat(State(), data, sod);
        sod := sod + 1;
        bytesLeft := bytesLeft - 1;
      }
      assert sod < |data| ==> buf[sod] == buf[..|data|][sod];
    }

    method Receive(data: string)
      requires buf.Length == BUFFER_SIZE && 1 <= |data| <= BUFFER_SIZE - 1 && connected
      modifies this, buf
      ensures State() == OnBytes(old(State()), data)
    {
      Fill(data);
      Decode(data);
    }

    /** The thread: reads until a read fails.  After a rejected frame the socket is closed, so the
        next read fails and nothing that the server sent later is looked at. */
    method ReaderThread(chunks: seq<string>)
      requires buf.Length == BUFFER_SIZE && connected
      requires forall k :: 0 <= k < |chunks| ==> 1 <= |chunks[k]| <= BUFFER_SIZE - 1
      modifies this, buf
      ensures State() == OnBytes(old(State()), Flatten(chunks)).(alive := false)
    {
      ghost var start := State();
      var k := 0;
      while k < |chunks| && connected
        invariant k <= |chunks|
        invariant OnBytes(State(), Flatten(chunks[k..])) == OnBytes(start, Flatten(chunks))
        decreases |chunks| - k
      {
        OnBytesConcat(State(), chunks[k], Flatten(chunks[k + 1..]));
        assert chunks[k..][1..] == chunks[k + 1..];
        Receive(chunks[k]);
        k := k + 1;
      }
      if !connected {
        DeadStaysDead(State(), Flatten(chunks[k..]));
      }
      connected := false;
    }
  }

  lemma SkipBeat(d: Decoder, data: string, sod: nat)
    requires sod < |data| && data[sod] == '\n' && d.partial == "" && d.alive
    ensures OnBytes(d, data[sod..]) == OnBytes(d, data[sod + 1..])
  {
    assert data[sod..][0] == '\n' && data[sod..][1..] == data[sod + 1..];
  }

  /** One pass of the loop: the bytes up to `i`, and the NUL if it is one of the data. */
  lemma TakeSegment(d: Decoder, data: string, sod: nat, i: nat)
    requires d.alive && sod <= i <= |data| && '\0' !in data[sod..i] && (i < |data| ==> data[i] == '\0')
    requires sod < |data| && (d.partial == "" ==> data[sod] != '\n')
    ensures var d' := d.(partial := d.partial + data[sod..i]);
            OnBytes(d, data[sod..])
            == if i < |data| then OnBytes(EndOfFrame(d'), data[i + 1..]) else OnBytes(d', "")
  {
    OnData(d, data[sod..i]);
    SegmentAndRest(data, sod, i);
    OnBytesConcat(d, data[sod..i], data[i..]);
    if i < |data| { OnNul(d.(partial := d.partial + data[sod..i]), data[i..]); }
  }

  lemma SegmentAndRest(data: string, sod: nat, i: nat)
    requires sod <= i <= |data|
    ensures data[sod..] == data[sod..i] + data[i..]
    ensures if i < |data| then data[i..][0] == data[i] && data[i..][1..] == data[i + 1..] else data[i..] == ""
  {
  }

  lemma OnNul(d: Decoder, rest: string)
    requires d.alive && rest != "" && rest[0] == '\0'
    ensures OnBytes(d, rest) == OnBytes(EndOfFrame(d), rest[1..])
  {
  }

  function ErrorText(r: Reply): string {
    if "message" in r.headers then "ERROR from server: " + r.headers["message"] else "ERROR from server"
  }

  // ---------- end to end ----------

  /** One server frame on the wire: heartbeats, then the frame and its NUL. */
  datatype Sent = Sent(beats: nat, command: string, headers: seq<(string, string)>, body: string)

  function Beats(n: nat): string {
    if n == 0 then "" else "\n" + Beats(n - 1)
  }

  function HeaderLines(headers: seq<(string, string)>): seq<string> {
    seq(|headers|, i requires 0 <= i < |headers| => headers[i].0 + ":" + headers[i].1)
  }

  function FrameText(m: Sent): string {
    PrintFrame(m.command, HeaderLines(m.headers), m.body)
  }

  function Stream(ms: seq<Sent>): string {
    if ms == [] then "" else Beats(ms[0].beats) + FrameText(ms[0]) + "\0" + Stream(ms[1..])
  }

  /** A header that needs no escapes. */
  predicate PlainHeader(h: (string, string)) {
    && '\n' !in h.0 && ':' !in h.0 && '\0' !in h.0
    && '\n' !in h.1 && '\0' !in h.1
  }

  ghost predicate WellFormed(m: Sent) {
    && '\n' !in m.command && '\0' !in m.command && '\0' !in m.body
    && forall i :: 0 <= i < |m.headers| ==> PlainHeader(m.headers[i])
  }

  /** The first value of every key. */
  function FirstValues(headers: seq<(string, string)>): map<string, string> {
    if headers == [] then map[]
    else FirstValues(headers[1..])[headers[0].0 := headers[0].1]
  }

  function ReplyOf(m: Sent): Reply {
    Reply(m.command, FirstValues(m.headers), m.body)
  }

  function RepliesOf(ms: seq<Sent>): seq<Reply> {
    if ms == [] then [] else [ReplyOf(ms[0])] + RepliesOf(ms[1..])
  }

  lemma {:induction false} AddLinesIsFirstValues(acc: map<string, string>, headers: seq<(string, string)>)
    requires forall i :: 0 <= i < |headers| ==> ':' !in headers[i].0
    ensures AddLines(acc, HeaderLines(headers)) == FirstValues(headers) + acc
    decreases |headers|
  {
    var lines := HeaderLines(headers);
    if headers != [] {
      var (key, value) := headers[0];
      KeyValue(key, value);
      assert lines[1..] == HeaderLines(headers[1..]);
      AddLinesIsFirstValues(AddHeader(acc, key, value), headers[1..]);
      assert FirstValues(headers[1..]) + AddHeader(acc, key, value) == FirstValues(headers) + acc;
    }
  }

  lemma WellFormedParses(m: Sent)
    requires WellFormed(m)
    ensures ParseFrame(FrameText(m)) == Some(ReplyOf(m))
  {
    var lines := HeaderLines(m.headers);
    forall i | 0 <= i < |lines| ensures HeaderLine(lines[i]) {
      assert lines[i][|m.headers[i].0|] == ':';
    }
    PrintedIsAccepted(m.command, lines, m.body);
    AddLinesIsFirstValues(map[], m.headers);
    assert FirstValues(m.headers) + map[] == FirstValues(m.headers);
  }

  lemma {:induction false} JoinNulFree(lines: seq<string>)
    requires forall i :: 0 <= i < |lines| ==> '\0' !in lines[i]
    ensures '\0' !in Join(lines, '\n')
  {
    if lines != [] { JoinNulFree(lines[1..]); }
  }

  lemma FrameNulFree(m: Sent)
    requires WellFormed(m)
    ensures '\0' !in FrameText(m) && FrameText(m) != "" && (m.command != "" ==> FrameText(m)[0] != '\n')
  {
    JoinNulFree(HeaderLines(m.headers));
    assert m.command != "" ==> FrameText(m)[0] == m.command[0];
  }

  lemma {:induction false} BeatsAreSkipped(d: Decoder, n: nat)
    requires d.alive && d.partial == ""
    ensures OnBytes(d, Beats(n)) == d
  {
    if n > 0 {
      assert Beats(n)[1..] == Beats(n - 1);
      BeatsAreSkipped(d, n - 1);
    }
  }

  lemma OneFrame(d: Decoder, m: Sent)
    requires WellFormed(m) && m.command != "" && d.alive && d.partial == ""
    ensures OnBytes(d, Beats(m.beats) + FrameText(m) + "\0") == Decoder("", d.replies + [ReplyOf(m)], true)
  {
    var text := FrameText(m);
    BeatsAreSkipped(d, m.beats);
    OnBytesConcat(d, Beats(m.beats), text);
    FrameNulFree(m);
    OnData(d, text);
    assert d.partial + text == text;
    OnBytesConcat(d, Beats(m.beats) + text, "\0");
    var full := d.(partial := text);
    assert OnBytes(full, "\0") == OnByte(full, '\0') by { assert "\0"[1..] == ""; }
    WellFormedParses(m);
  }

  /** Every well-formed frame a server sends is queued, in order, with the first value of every
      repeated key, whatever the heartbeats in between. */
  lemma {:induction false} StreamDecodes(d: Decoder, ms: seq<Sent>)
    requires d.alive && d.partial == ""
    requires forall i :: 0 <= i < |ms| ==> WellFormed(ms[i]) && ms[i].command != ""
    ensures OnBytes(d, Stream(ms)) == Decoder("", d.replies + RepliesOf(ms), true)
    decreases |ms|
  {
    if ms == [] {
      assert d.replies + [] == d.replies;
    } else {
      var first := Beats(ms[0].beats) + FrameText(ms[0]) + "\0";
      OneFrame(d, ms[0]);
      OnBytesConcat(d, first, Stream(ms[1..]));
      StreamDecodes(Decoder("", d.replies + [ReplyOf(ms[0])], true), ms[1..]);
      Assoc(d.replies, [ReplyOf(ms[0])], RepliesOf(ms[1..]));
    }
  }

  /** The reader thread, from a fresh connection: for every way of cutting the stream, followed by
      any number of heartbeats, into reads of 1 to 1536 bytes, it queues exactly the replies sent. */
  method DecodeStream(ms: seq<Sent>, trailing: nat, chunks: seq<string>) returns (replies: seq<Reply>)
    requires forall i :: 0 <= i < |ms| ==> WellFormed(ms[i]) && ms[i].command != ""
    requires forall k :: 0 <= k < |chunks| ==> 1 <= |chunks[k]| <= BUFFER_SIZE - 1
    requires Flatten(chunks) == Stream(ms) + Beats(trailing)
    ensures replies == RepliesOf(ms)
  {
    var reader := new Reader();
    ghost var start := reader.State();
    reader.ReaderThread(chunks);
    StreamDecodes(start, ms);
    OnBytesConcat(start, Stream(ms), Beats(trailing));
    BeatsAreSkipped(Decoder("", [] + RepliesOf(ms), true), trailing);
    assert [] + RepliesOf(ms) == RepliesOf(ms);
    replies := reader.replyQueue;
  }

  // ---------- a rejected frame ----------

  /** A frame that is rejected ends the connection: what came before stays queued, what follows is
      dropped, whatever it is. */
  lemma RejectedEndsAll(ms: seq<Sent>, bad: string, rest: string)
    requires forall i :: 0 <= i < |ms| ==> WellFormed(ms[i]) && ms[i].command != ""
    requires '\0' !in bad && (bad == "" || bad[0] != '\n') && ParseFrame(bad) == None
    ensures OnBytes(Decoder("", [], true), Stream(ms) + (bad + ("\0" + rest))) == Decoder("", RepliesOf(ms), false)
  {
    var d, after := Decoder("", [] + RepliesOf(ms), true), "\0" + rest;
    StreamDecodes(Decoder("", [], true), ms);
    OnBytesConcat(Decoder("", [], true), Stream(ms), bad + after);
    OnData(d, bad);
    OnBytesConcat(d, bad, after);
    assert d.partial + bad == bad && after[1..] == rest;
    OnNul(d.(partial := bad), after);
    DeadStaysDead(Decoder("", d.replies, false), rest);
    assert [] + RepliesOf(ms) == RepliesOf(ms);
  }

  /** So the reader thread does, for every way of cutting such a stream into reads. */
  method DecodeUntilRejected(ms: seq<Sent>, bad: string, rest: string, chunks: seq<string>) returns (replies: seq<Reply>)
    requires forall i :: 0 <= i < |ms| ==> WellFormed(ms[i]) && ms[i].command != ""
    requires '\0' !in bad && (bad == "" || bad[0] != '\n') && ParseFrame(bad) == None
    requires forall k :: 0 <= k < |chunks| ==> 1 <= |chunks[k]| <= BUFFER_SIZE - 1
    requires Flatten(chunks) == Stream(ms) + (bad + ("\0" + rest))
    ensures replies == RepliesOf(ms)
  {
    var reader := new Reader();
    reader.ReaderThread(chunks);
    RejectedEndsAll(ms, bad, rest);
    replies := reader.replyQueue;
  }

  // ---------- the empty command ----------

  /** No partial frame starts with a line feed, and no queued reply has an empty command. */
  ghost predicate Named(d: Decoder) {
    && (d.partial != "" ==> d.partial[0] != '\n')
    && forall i :: 0 <= i < |d.replies| ==> d.replies[i].command != ""
  }

  lemma PrintFrameStart(command: string, lines: seq<string>, body: string)
    ensures var f := PrintFrame(command, lines, body); f != "" && (command == "" ==> f[0] == '\n')
  {
  }

  lemma NamedStep(d: Decoder, b: char)
    requires Named(d)
    ensures Named(OnByte(d, b))
  {
    if d.alive && b == '\0' {
      match ParseFrame(d.partial)
      case None =>
      case Some(r) =>
        var lines := AcceptedIsPrinted(d.partial);
        PrintFrameStart(r.command, lines, r.body);
    }
  }

  lemma {:induction false} NamedRun(d: Decoder, bytes: string)
    requires Named(d)
    ensures Named(OnBytes(d, bytes))
    decreases |bytes|
  {
    if bytes != "" {
      NamedStep(d, bytes[0]);
      NamedRun(OnByte(d, bytes[0]), bytes[1..]);
    }
  }

  /** An otherwise well-formed frame arrives exactly when its command is not empty: the line feed
      after an empty command is taken for a heartbeat. */
  lemma ArrivesIffNamed(m: Sent)
    requires WellFormed(m)
    ensures OnBytes(Decoder("", [], true), Beats(m.beats) + FrameText(m) + "\0") == Decoder("", [ReplyOf(m)], true)
            <==> m.command != ""
  {
    var d := Decoder("", [], true);
    if m.command != "" {
      OneFrame(d, m);
      assert [] + [ReplyOf(m)] == [ReplyOf(m)];
    } else {
      NamedRun(d, Beats(m.beats) + FrameText(m) + "\0");
      assert [ReplyOf(m)][0].command == "";
    }
  }
}
