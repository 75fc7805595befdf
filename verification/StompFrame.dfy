/** The frame parser of output_stream_stomp.cpp (`handle_reply`), against the frame shape of the
    STOMP Protocol Specification 1.1, sections "STOMP Frames" and "Repeated Header Entries". */
module StompFrames {
  import opened Wrappers
  import opened Text

  datatype Reply = Reply(command: string, headers: map<string, string>, body: string)

  /** A repeated key is ignored: the first value is kept. */
  function AddHeader(headers: map<string, string>, key: string, value: string): map<string, string> {
    if key in headers then headers else headers[key := value]
  }

  /** The header lines, the empty line and the body. */
  function ParseHeaders(command: string, headers: map<string, string>, rest: string): Option<Reply>
    decreases |rest|
  {
    match Find(rest, '\n', 0)
    case None => None
    case Some(i) =>
      if i == 0 then Some(Reply(command, headers, rest[1..]))
      else
        match Find(rest[..i], ':', 0)
        case None => None
        case Some(colon) =>
          ParseHeaders(command, AddHeader(headers, rest[..colon], rest[colon + 1..i]), rest[i + 1..])
  }

  function ParseFrame(frame: string): Option<Reply> {
    match Find(frame, '\n', 0)
    case None => None
    case Some(i) => ParseHeaders(frame[..i], map[], frame[i + 1..])
  }

  // The turns of the header loop, which searches from `oldi` instead of cutting the string.

  lemma HeadersEnd(frame: string, command: string, headers: map<string, string>, oldi: nat)
    requires Find(frame, '\n', oldi) == Some(oldi) && oldi <= |frame|
    ensures ParseHeaders(command, headers, frame[oldi..]) == Some(Reply(command, headers, frame[oldi + 1..]))
  {
    FindShift(frame, '\n', oldi, oldi);
    assert frame[oldi..][1..] == frame[oldi + 1..];
  }

  lemma HeadersFail(frame: string, command: string, headers: map<string, string>, oldi: nat)
    requires oldi <= |frame|
    requires match Find(frame, '\n', oldi)
             case None => true
             case Some(i) => i != oldi && Find(frame[oldi..i], ':', 0).None?
    ensures ParseHeaders(command, headers, frame[oldi..]) == None
  {
    FindShift(frame, '\n', oldi, oldi);
    match Find(frame, '\n', oldi)
    case None =>
    case Some(i) => assert frame[oldi..][..i - oldi] == frame[oldi..i];
  }

  lemma HeadersNext(frame: string, command: string, headers: map<string, string>, oldi: nat, i: nat, colon: nat)
    requires oldi <= |frame| && Find(frame, '\n', oldi) == Some(i) && i != oldi
    requires Find(frame[oldi..i], ':', 0) == Some(colon)
    ensures var line := frame[oldi..i];
            ParseHeaders(command, headers, frame[oldi..])
            == ParseHeaders(command, AddHeader(headers, line[..colon], line[colon + 1..]), frame[i + 1..])
  {
    var rest, line := frame[oldi..], frame[oldi..i];
    FindShift(frame, '\n', oldi, oldi);
    assert rest[..i - oldi] == line && rest[i - oldi + 1..] == frame[i + 1..];
    assert rest[..colon] == line[..colon] && rest[colon + 1..i - oldi] == line[colon + 1..];
  }

  /** The loop of `handle_reply`.  Its two tests for having overrun the string never fire. */
  method Parse(frame: string) returns (r: Option<Reply>)
    ensures r == ParseFrame(frame)
  {
    var lf := Find(frame, '\n', 0);
    if lf.None? {
      return None;
    }
    var i := lf.value;
    var command := frame[..i];
    r := ParseRest(frame, command, i);
  }

  method ParseRest(frame: string, command: string, end: nat) returns (r: Option<Reply>)
    requires end < |frame|
    ensures r == ParseHeaders(command, map[], frame[end + 1..])
  {
    var i, more := end, true;
    r := None;
    var headers: map<string, string> := map[];
    ghost var goal := ParseHeaders(command, map[], frame[end + 1..]);
    while more
      invariant i < |frame|
      invariant if more then ParseHeaders(command, headers, frame[i + 1..]) == goal else r == goal
      decreases more, |frame| - i
    {
      i, headers, more, r := ParseLineAt(frame, command, headers, i);
    }
  }

  /** One turn of the loop, behind the line feed at `end`: a header is added, or the result is known. */
  method ParseLineAt(frame: string, command: string, headers: map<string, string>, end: nat)
    returns (i: nat, added: map<string, string>, more: bool, r: Option<Reply>)
    requires end < |frame|
    ensures i < |frame| && (more ==> end < i)
    ensures var goal := ParseHeaders(command, headers, frame[end + 1..]);
            if more then ParseHeaders(command, added, frame[i + 1..]) == goal else r == goal
  {
    i, added, more, r := end, headers, false, None;
    var oldi := end + 1;
    assert oldi <= |frame|;
    var lf := Find(frame, '\n', oldi);
    if lf.None? {
      HeadersFail(frame, command, headers, oldi);
      return;
    }
    i := lf.value;
    if i == oldi {
      HeadersEnd(frame, command, headers, oldi);
      r := Some(Reply(command, headers, frame[i + 1..]));
      return;
    }
    var line := frame[oldi..i];
    var colon := Find(line, ':', 0);
    if colon.None? {
      HeadersFail(frame, command, headers, oldi);
      return;
    }
    HeadersNext(frame, command, headers, oldi, i, colon.value);
    added, more := AddHeader(headers, line[..colon.value], line[colon.value + 1..]), true;
  }

  // ---------- the shape of a frame ----------

  function PrintFrame(command: string, lines: seq<string>, body: string): string {
    command + "\n" + Join(lines, '\n') + "\n" + body
  }

  /** A header line: key, colon, value. */
  predicate HeaderLine(line: string) {
    '\n' !in line && ':' in line
  }

  ghost predicate WellShaped(command: string, lines: seq<string>) {
    '\n' !in command && forall i :: 0 <= i < |lines| ==> HeaderLine(lines[i])
  }

  function KeyOf(line: string): string {
    match Find(line, ':', 0)
    case None => line
    case Some(i) => line[..i]
  }

  function ValueOf(line: string): string {
    match Find(line, ':', 0)
    case None => ""
    case Some(i) => line[i + 1..]
  }

  function AddLines(headers: map<string, string>, lines: seq<string>): map<string, string>
    decreases |lines|
  {
    if lines == [] then headers else AddLines(AddHeader(headers, KeyOf(lines[0]), ValueOf(lines[0])), lines[1..])
  }

  lemma HasColon(line: string)
    requires HeaderLine(line)
    ensures Find(line, ':', 0).Some? && line == KeyOf(line) + ":" + ValueOf(line)
    ensures ':' !in KeyOf(line) && '\n' !in KeyOf(line) && '\n' !in ValueOf(line)
  {
    FindFirst(line, ':', 0);
    assert line[0..] == line;
    match Find(line, ':', 0)
    case Some(i) => assert line[0..i] == line[..i];
    case None => assert false;
  }

  /** A key and a value make a header line with these parts. */
  lemma KeyValue(key: string, value: string)
    requires ':' !in key
    ensures KeyOf(key + ":" + value) == key && ValueOf(key + ":" + value) == value
  {
    FindAfter(key, value, ':');
  }

  lemma ParseLine(command: string, headers: map<string, string>, line: string, rest: string)
    requires HeaderLine(line)
    ensures ParseHeaders(command, headers, line + "\n" + rest)
            == ParseHeaders(command, AddHeader(headers, KeyOf(line), ValueOf(line)), rest)
  {
    var s := line + "\n" + rest;
    FindAfter(line, rest, '\n');
    HasColon(line);
    var colon := Find(line, ':', 0).value;
    assert s[..colon] == line[..colon] && s[colon + 1..|line|] == line[colon + 1..];
  }

  lemma ParseEmptyLine(command: string, headers: map<string, string>, body: string)
    ensures ParseHeaders(command, headers, "\n" + body) == Some(Reply(command, headers, body))
  {
    FindAfter("", body, '\n');
    assert "" + ['\n'] + body == "\n" + body;
  }

  /** What follows the command line. */
  function Remainder(lines: seq<string>, body: string): string {
    Join(lines, '\n') + "\n" + body
  }

  lemma RemainderCons(line: string, more: seq<string>, body: string)
    ensures Remainder([line] + more, body) == line + "\n" + Remainder(more, body)
  {
    assert ([line] + more)[1..] == more;
  }

  lemma {:induction false} ParsePrinted(command: string, headers: map<string, string>, lines: seq<string>, body: string)
    requires forall i :: 0 <= i < |lines| ==> HeaderLine(lines[i])
    ensures ParseHeaders(command, headers, Remainder(lines, body)) == Some(Reply(command, AddLines(headers, lines), body))
    decreases |lines|
  {
    if lines == [] {
      assert Remainder(lines, body) == "\n" + body;
      ParseEmptyLine(command, headers, body);
    } else {
      assert lines == [lines[0]] + lines[1..];
      RemainderCons(lines[0], lines[1..], body);
      ParseLine(command, headers, lines[0], Remainder(lines[1..], body));
      ParsePrinted(command, AddHeader(headers, KeyOf(lines[0]), ValueOf(lines[0])), lines[1..], body);
    }
  }

  lemma PrintFrameIs(command: string, lines: seq<string>, body: string)
    ensures PrintFrame(command, lines, body) == command + ['\n'] + Remainder(lines, body)
  {
  }

  /** Every frame of the right shape is accepted, with the parts it was printed from. */
  lemma PrintedIsAccepted(command: string, lines: seq<string>, body: string)
    requires WellShaped(command, lines)
    ensures ParseFrame(PrintFrame(command, lines, body)) == Some(Reply(command, AddLines(map[], lines), body))
  {
    PrintFrameIs(command, lines, body);
    FindAfter(command, Remainder(lines, body), '\n');
    ParsePrinted(command, map[], lines, body);
  }

  // ---------- nothing else is accepted ----------

  lemma AcceptedLine(rest: string, i: nat)
    requires Find(rest, '\n', 0) == Some(i) && Find(rest[..i], ':', 0).Some?
    ensures var line := rest[..i]; var colon := Find(line, ':', 0).value;
            && HeaderLine(line) && rest == line + "\n" + rest[i + 1..]
            && KeyOf(line) == rest[..colon] && ValueOf(line) == rest[colon + 1..i]
  {
    FindFirst(rest, '\n', 0);
    assert rest[0..i] == rest[..i];
    assert rest[..i][Find(rest[..i], ':', 0).value] == ':';
  }

  lemma UnfoldLine(command: string, headers: map<string, string>, rest: string, i: nat)
    requires Find(rest, '\n', 0) == Some(i) && i > 0 && Find(rest[..i], ':', 0).Some?
    ensures ParseHeaders(command, headers, rest)
            == ParseHeaders(command, AddHeader(headers, KeyOf(rest[..i]), ValueOf(rest[..i])), rest[i + 1..])
  {
    AcceptedLine(rest, i);
  }

  lemma AddLinesCons(headers: map<string, string>, line: string, more: seq<string>)
    ensures AddLines(headers, [line] + more) == AddLines(AddHeader(headers, KeyOf(line), ValueOf(line)), more)
  {
    assert ([line] + more)[1..] == more;
  }

  lemma {:induction false} AcceptedHeaders(command: string, headers: map<string, string>, rest: string, r: Reply)
      returns (lines: seq<string>)
    requires ParseHeaders(command, headers, rest) == Some(r)
    ensures forall i :: 0 <= i < |lines| ==> HeaderLine(lines[i])
    ensures rest == Remainder(lines, r.body) && r.command == command && r.headers == AddLines(headers, lines)
    decreases |rest|
  {
    var i := Find(rest, '\n', 0).value;
    if i == 0 {
      lines := [];
      assert rest == "" + "\n" + rest[1..];
    } else {
      var line := rest[..i];
      AcceptedLine(rest, i);
      UnfoldLine(command, headers, rest, i);
      var more := AcceptedHeaders(command, AddHeader(headers, KeyOf(line), ValueOf(line)), rest[i + 1..], r);
      lines := [line] + more;
      AddLinesCons(headers, line, more);
      RemainderCons(line, more, r.body);
    }
  }

  /** Every accepted frame has the shape, and the parts it was printed from are the parsed ones. */
  lemma AcceptedIsPrinted(frame: string) returns (lines: seq<string>)
    requires ParseFrame(frame).Some?
    ensures var r := ParseFrame(frame).value;
            WellShaped(r.command, lines) && frame == PrintFrame(r.command, lines, r.body)
            && r.headers == AddLines(map[], lines)
  {
    var i := Find(frame, '\n', 0).value;
    var command, rest, r := frame[..i], frame[i + 1..], ParseFrame(frame).value;
    CommandLine(frame, i);
    lines := AcceptedHeaders(command, map[], rest, r);
    PrintFrameIs(command, lines, r.body);
  }

  lemma CommandLine(frame: string, i: nat)
    requires Find(frame, '\n', 0) == Some(i)
    ensures i < |frame| && '\n' !in frame[..i] && frame == frame[..i] + ['\n'] + frame[i + 1..]
  {
    FindFirst(frame, '\n', 0);
    CutAround(frame, i);
  }

  /** `handle_reply` accepts exactly the frames of the shape command LF (line with ':' LF)* LF body. */
  lemma AcceptsExactlyTheShape(frame: string)
    ensures ParseFrame(frame).Some?
            <==> exists command, lines, body :: WellShaped(command, lines) && frame == PrintFrame(command, lines, body)
  {
    if ParseFrame(frame).Some? {
      var lines := AcceptedIsPrinted(frame);
    }
    forall command, lines, body | WellShaped(command, lines) && frame == PrintFrame(command, lines, body)
      ensures ParseFrame(frame).Some?
    {
      PrintedIsAccepted(command, lines, body);
    }
  }

  lemma JoinInjective(lines1: seq<string>, lines2: seq<string>)
    requires FreeOf(lines1, '\n') && FreeOf(lines2, '\n') && Join(lines1, '\n') == Join(lines2, '\n')
    ensures lines1 == lines2
  {
    SplitUnique(lines1, "", '\n');
    SplitUnique(lines2, "", '\n');
  }

  lemma SameEnd(a: string, b: string, end: string)
    requires a + end == b + end
    ensures a == b
  {
    assert (a + end)[..|a|] == a && (b + end)[..|b|] == b;
  }

  lemma RemainderInjective(lines1: seq<string>, lines2: seq<string>, body: string)
    requires FreeOf(lines1, '\n') && FreeOf(lines2, '\n') && Remainder(lines1, body) == Remainder(lines2, body)
    ensures lines1 == lines2
  {
    assert Remainder(lines1, body) == Join(lines1, '\n') + ("\n" + body);
    assert Remainder(lines2, body) == Join(lines2, '\n') + ("\n" + body);
    SameEnd(Join(lines1, '\n'), Join(lines2, '\n'), "\n" + body);
    JoinInjective(lines1, lines2);
  }

  lemma SameCommand(c: string, rest1: string, rest2: string)
    requires c + ['\n'] + rest1 == c + ['\n'] + rest2
    ensures rest1 == rest2
  {
    assert (c + ['\n'] + rest1)[|c| + 1..] == rest1 && (c + ['\n'] + rest2)[|c| + 1..] == rest2;
  }

  /** A frame can be taken apart in one way only. */
  lemma DecompositionIsUnique(c1: string, lines1: seq<string>, b1: string, c2: string, lines2: seq<string>, b2: string)
    requires WellShaped(c1, lines1) && WellShaped(c2, lines2)
    requires PrintFrame(c1, lines1, b1) == PrintFrame(c2, lines2, b2)
    ensures c1 == c2 && lines1 == lines2 && b1 == b2
  {
    SameParts(c1, lines1, b1, c2, lines2, b2);
    PrintFrameIs(c1, lines1, b1);
    PrintFrameIs(c2, lines2, b2);
    SameCommand(c1, Remainder(lines1, b1), Remainder(lines2, b2));
    RemainderInjective(lines1, lines2, b1);
  }

  lemma SameParts(c1: string, lines1: seq<string>, b1: string, c2: string, lines2: seq<string>, b2: string)
    requires WellShaped(c1, lines1) && WellShaped(c2, lines2)
    requires PrintFrame(c1, lines1, b1) == PrintFrame(c2, lines2, b2)
    ensures c1 == c2 && b1 == b2
  {
    PrintedIsAccepted(c1, lines1, b1);
    PrintedIsAccepted(c2, lines2, b2);
  }

  // ---------- the header map ----------

  lemma {:induction false} AddLinesKeeps(headers: map<string, string>, lines: seq<string>, key: string)
    requires key in headers
    ensures key in AddLines(headers, lines) && AddLines(headers, lines)[key] == headers[key]
    decreases |lines|
  {
    if lines != [] { AddLinesKeeps(AddHeader(headers, KeyOf(lines[0]), ValueOf(lines[0])), lines[1..], key); }
  }

  /** Line `i` is the first one with this key. */
  ghost predicate FirstAt(lines: seq<string>, key: string, i: nat) {
    i < |lines| && KeyOf(lines[i]) == key && forall j :: 0 <= j < i ==> KeyOf(lines[j]) != key
  }

  lemma FirstAtTail(lines: seq<string>, key: string)
    requires lines != [] && KeyOf(lines[0]) != key
    ensures forall i: nat :: FirstAt(lines, key, i) ==> i > 0 && FirstAt(lines[1..], key, i - 1)
    ensures (exists i :: 0 <= i < |lines| && KeyOf(lines[i]) == key)
            <==> exists i :: 0 <= i < |lines[1..]| && KeyOf(lines[1..][i]) == key
  {
    assert forall i :: 1 <= i < |lines| ==> lines[i] == lines[1..][i - 1];
  }

  /** Repeated header entries: the first value of each key is kept, and there are no other keys. */
  lemma {:induction false} FirstValueWins(headers: map<string, string>, lines: seq<string>, key: string)
    requires key !in headers
    ensures key in AddLines(headers, lines) <==> exists i :: 0 <= i < |lines| && KeyOf(lines[i]) == key
    ensures forall i: nat :: FirstAt(lines, key, i) ==>
              key in AddLines(headers, lines) && AddLines(headers, lines)[key] == ValueOf(lines[i])
    decreases |lines|
  {
    if lines != [] {
      var next := AddHeader(headers, KeyOf(lines[0]), ValueOf(lines[0]));
      if KeyOf(lines[0]) == key {
        AddLinesKeeps(next, lines[1..], key);
      } else {
        FirstAtTail(lines, key);
        FirstValueWins(next, lines[1..], key);
      }
    }
  }

  /** The header lines of a parsed reply, for a given order of its keys. */
  function LinesOf(r: Reply, keys: seq<string>): seq<string>
    requires forall i :: 0 <= i < |keys| ==> keys[i] in r.headers
  {
    seq(|keys|, i requires 0 <= i < |keys| => keys[i] + ":" + r.headers[keys[i]])
  }

  /** Reprinting a parsed reply with its keys in the original order gives back the frame, when no
      key was repeated. */
  lemma ReprintGivesFrame(command: string, lines: seq<string>, body: string)
    requires WellShaped(command, lines)
    requires forall i, j :: 0 <= i < j < |lines| ==> KeyOf(lines[i]) != KeyOf(lines[j])
    ensures ParseFrame(PrintFrame(command, lines, body)).Some?
    ensures var r := ParseFrame(PrintFrame(command, lines, body)).value;
            var keys := seq(|lines|, i requires 0 <= i < |lines| => KeyOf(lines[i]));
            && (forall i :: 0 <= i < |keys| ==> keys[i] in r.headers)
            && PrintFrame(r.command, LinesOf(r, keys), r.body) == PrintFrame(command, lines, body)
  {
    PrintedIsAccepted(command, lines, body);
    var r := ParseFrame(PrintFrame(command, lines, body)).value;
    var keys := seq(|lines|, i requires 0 <= i < |lines| => KeyOf(lines[i]));
    forall i | 0 <= i < |lines| ensures keys[i] in r.headers && keys[i] + ":" + r.headers[keys[i]] == lines[i] {
      FirstValueWins(map[], lines, keys[i]);
      HasColon(lines[i]);
    }
    assert LinesOf(r, keys) == lines;
  }
}
