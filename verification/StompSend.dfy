/** The SEND packet built by `do_write` of output_stream_stomp.cpp. */
module StompSend {
  import opened Wrappers
  import opened Text
  import opened Numbers
  import opened Tags
  import opened LogEvents
  import opened Escaping
  import opened StompFrames
  import opened StompReaders

  function LevelString(level: Level): string {
    match level
    case Finest => "FINEST"
    case Finer => "FINER"
    case Fine => "FINE"
    case Config => "CONFIG"
    case Info => "INFO"
    case Warning => "WARNING"
    case Severe => "SEVERE"
  }

  /** What the constructor found out about the process; `/UNKNOWN/` stands for a failed query. */
  datatype Origin = Origin(app: string, host: Option<string>, user: Option<string>)

  function OrUnknown(name: Option<string>): string {
    match name
    case None => "/UNKNOWN/"
    case Some(s) => Escape(s)
  }

  /** The entries of the map, in the order they are written. */
  datatype Name = ApplicationId | CreateTime | Host | Function | Severity | Message | Type | User | Class

  const NAMES: seq<Name> := [ApplicationId, CreateTime, Host, Function, Severity, Message, Type, User, Class]

  function Key(name: Name): string {
    match name
    case ApplicationId => "APPLICATION-ID"
    case CreateTime => "CREATETIME"
    case Host => "HOST"
    case Function => "NAME"
    case Severity => "SEVERITY"
    case Message => "TEXT"
    case Type => "TYPE"
    case User => "USER"
    case Class => "CLASS"
  }

  function ValueFor(o: Origin, e: LogEvent, name: Name): string {
    match name
    case ApplicationId => Escape(o.app)
    case CreateTime => e.timeString
    case Host => OrUnknown(o.host)
    case Function => Escape(e.function_name)
    case Severity => LevelString(e.level)
    case Message => Escape(e.message)
    case Type => "log"
    case User => OrUnknown(o.user)
    case Class => Escape(e.subsystem)
  }

  datatype Field = Field(key: string, value: string)

  function Fields(o: Origin, e: LogEvent): seq<Field> {
    seq(|NAMES|, i requires 0 <= i < |NAMES| => Field(Key(NAMES[i]), ValueFor(o, e, NAMES[i])))
  }

  /** The fixed text around the entries. */
  datatype Markup = Markup(start: string, open: string, middle: string, close: string, end: string)

  const XML := Markup("<map>\n", "<entry><string>", "</string><string>", "</string></entry>\n", "</map>\n")

  function EntryText(x: Markup, f: Field): string {
    x.open + f.key + x.middle + f.value + x.close
  }

  function EntriesText(x: Markup, fields: seq<Field>): string {
    if fields == [] then "" else EntryText(x, fields[0]) + EntriesText(x, fields[1..])
  }

  function Body(o: Origin, e: LogEvent): string {
    MapText(XML, Fields(o, e))
  }

  function MapText(x: Markup, fields: seq<Field>): string {
    x.start + EntriesText(x, fields) + x.end
  }

  const DESTINATION := "destination:/topic/"
  const TRANSFORMATION := "transformation:jms-map-xml"
  const RECEIPT := "receipt:"

  /** What follows the path. */
  function HeaderEnd(receipt: nat): string {
    "\n" + TRANSFORMATION + "\n" + RECEIPT + Decimal(receipt) + "\n" + "\n"
  }

  function Header(path: string, receipt: nat): string {
    "SEND\n" + DESTINATION + path + HeaderEnd(receipt)
  }

  function Packet(path: string, receipt: nat, o: Origin, e: LogEvent): string {
    Header(path, receipt) + Body(o, e) + "\0"
  }

  /** The fields for values in the order of their names. */
  function FieldsWith(values: seq<string>): seq<Field>
    requires |values| == |NAMES|
  {
    seq(|NAMES|, i requires 0 <= i < |NAMES| => Field(Key(NAMES[i]), values[i]))
  }

  lemma ValuesInOrder(o: Origin, e: LogEvent)
    ensures Fields(o, e) == FieldsWith([Escape(o.app), e.timeString, OrUnknown(o.host), Escape(e.function_name),
                                        LevelString(e.level), Escape(e.message), "log", OrUnknown(o.user),
                                        Escape(e.subsystem)])
  {
    var values := [Escape(o.app), e.timeString, OrUnknown(o.host), Escape(e.function_name), LevelString(e.level),
                   Escape(e.message), "log", OrUnknown(o.user), Escape(e.subsystem)];
    assert forall i :: 0 <= i < |NAMES| ==> ValueFor(o, e, NAMES[i]) == values[i];
  }

  /** Building the packet; `order` is the iteration order of the replacement table. */
  method BuildPacket(path: string, receipt: nat, o: Origin, e: LogEvent, order: seq<Rule>) returns (packet: string)
    requires multiset(order) == multiset(TABLE)
    ensures packet == Packet(path, receipt, o, e)
  {
    var app := SanitizeString(o.app, order);
    var name := SanitizeString(e.function_name, order);
    var message := SanitizeString(e.message, order);
    var subsystem := SanitizeString(e.subsystem, order);
    var fields := FieldsWith([app, e.timeString, OrUnknown(o.host), name, LevelString(e.level), message, "log",
                              OrUnknown(o.user), subsystem]);
    ValuesInOrder(o, e);
    packet := Header(path, receipt) + MapText(XML, fields) + "\0";
  }

  // ---------- an independent reader of the body ----------

  function ReadEntry(x: Markup, s: string): Option<(Field, string)> {
    match After(s, x.open)
    case None => None
    case Some(s1) =>
      match Until(s1, x.middle)
      case None => None
      case Some((key, s2)) =>
        match Until(s2, x.close)
        case None => None
        case Some((value, s3)) => Some((Field(key, value), s3))
  }

  /** Entries up to the end tag. */
  function ReadEntries(x: Markup, s: string): Option<seq<Field>>
    decreases |s|
  {
    if s == x.end then Some([]) else
    match ReadEntry(x, s)
    case None => None
    case Some((f, rest)) =>
      if |rest| >= |s| then None else
      match ReadEntries(x, rest)
      case None => None
      case Some(more) => Some([f] + more)
  }

  function ReadMap(x: Markup, s: string): Option<seq<Field>> {
    match After(s, x.start)
    case None => None
    case Some(rest) => ReadEntries(x, rest)
  }

  /** Tags begin with '<', and the end tag is not the start of an entry. */
  predicate Distinct(x: Markup) {
    && x.open != "" && !(x.open <= x.end)
    && x.middle != "" && x.middle[0] == '<'
    && x.close != "" && x.close[0] == '<'
  }

  predicate Tagless(f: Field) {
    '<' !in f.key && '<' !in f.value
  }

  lemma ReadOneEntry(x: Markup, f: Field, rest: string)
    requires Distinct(x) && Tagless(f)
    ensures ReadEntry(x, EntryText(x, f) + rest) == Some((f, rest))
  {
    var s2 := f.value + x.close + rest;
    var s1 := f.key + x.middle + s2;
    assert EntryText(x, f) + rest == x.open + s1;
    AfterPrefix(x.open, s1);
    UntilTag(f.key, x.middle, s2);
    UntilTag(f.value, x.close, rest);
  }

  lemma EntryComesFirst(x: Markup, f: Field, rest: string)
    requires Distinct(x)
    ensures EntryText(x, f) + rest != x.end && |rest| < |EntryText(x, f) + rest|
  {
    assert x.open <= EntryText(x, f) + rest;
  }

  lemma ReadEntriesStep(x: Markup, s: string, f: Field, rest: string, more: seq<Field>)
    requires s != x.end && ReadEntry(x, s) == Some((f, rest)) && |rest| < |s| && ReadEntries(x, rest) == Some(more)
    ensures ReadEntries(x, s) == Some([f] + more)
  {
  }

  lemma {:induction false} ReadAllEntries(x: Markup, fields: seq<Field>)
    requires Distinct(x) && forall i :: 0 <= i < |fields| ==> Tagless(fields[i])
    ensures ReadEntries(x, EntriesText(x, fields) + x.end) == Some(fields)
    decreases |fields|
  {
    if fields == [] {
      assert EntriesText(x, fields) + x.end == x.end;
    } else {
      var rest := EntriesText(x, fields[1..]) + x.end;
      Assoc(EntryText(x, fields[0]), EntriesText(x, fields[1..]), x.end);
      EntryComesFirst(x, fields[0], rest);
      ReadOneEntry(x, fields[0], rest);
      ReadAllEntries(x, fields[1..]);
      ReadEntriesStep(x, EntryText(x, fields[0]) + rest, fields[0], rest, fields[1..]);
      assert fields == [fields[0]] + fields[1..];
    }
  }

  lemma MapReadsBack(x: Markup, fields: seq<Field>)
    requires Distinct(x) && forall i :: 0 <= i < |fields| ==> Tagless(fields[i])
    ensures ReadMap(x, MapText(x, fields)) == Some(fields)
  {
    ReadAllEntries(x, fields);
    Assoc(x.start, EntriesText(x, fields), x.end);
    AfterPrefix(x.start, EntriesText(x, fields) + x.end);
  }

  lemma XmlIsDistinct()
    ensures Distinct(XML)
  {
    assert |XML.open| == 15 && |XML.end| == 7;
  }

  /** The time string is what `format_time` produced: free of markup and NUL. */
  predicate PlainTime(e: LogEvent) {
    '<' !in e.timeString && '&' !in e.timeString && '\0' !in e.timeString
  }

  lemma OrUnknownIsClean(name: Option<string>)
    ensures '<' !in OrUnknown(name) && '\0' !in OrUnknown(name)
  {
    if name.Some? { EscapeIsClean(name.value); }
  }

  lemma KeyIsClean(name: Name)
    ensures '<' !in Key(name) && '\0' !in Key(name)
  {
  }

  lemma ValueIsClean(o: Origin, e: LogEvent, name: Name)
    requires PlainTime(e)
    ensures '<' !in ValueFor(o, e, name) && '\0' !in ValueFor(o, e, name)
  {
    match name
    case ApplicationId => EscapeIsClean(o.app);
    case Host => OrUnknownIsClean(o.host);
    case Function => EscapeIsClean(e.function_name);
    case Message => EscapeIsClean(e.message);
    case User => OrUnknownIsClean(o.user);
    case Class => EscapeIsClean(e.subsystem);
    case _ =>
  }

  predicate NulFree(f: Field) {
    '\0' !in f.key && '\0' !in f.value
  }

  lemma FieldsAreClean(o: Origin, e: LogEvent)
    requires PlainTime(e)
    ensures forall i :: 0 <= i < |Fields(o, e)| ==> Tagless(Fields(o, e)[i]) && NulFree(Fields(o, e)[i])
  {
    forall i | 0 <= i < |Fields(o, e)| ensures Tagless(Fields(o, e)[i]) && NulFree(Fields(o, e)[i]) {
      KeyIsClean(NAMES[i]);
      ValueIsClean(o, e, NAMES[i]);
    }
  }

  lemma {:induction false} EntriesNulFree(x: Markup, fields: seq<Field>)
    requires '\0' !in x.open && '\0' !in x.middle && '\0' !in x.close
    requires forall i :: 0 <= i < |fields| ==> NulFree(fields[i])
    ensures '\0' !in EntriesText(x, fields)
  {
    if fields != [] { EntriesNulFree(x, fields[1..]); }
  }

  /** Reading the body back gives the nine entries, in order. */
  lemma BodyReadsBack(o: Origin, e: LogEvent)
    requires PlainTime(e)
    ensures ReadMap(XML, Body(o, e)) == Some(Fields(o, e))
  {
    FieldsAreClean(o, e);
    XmlIsDistinct();
    MapReadsBack(XML, Fields(o, e));
  }

  /** The same with every key and every tag spelled out. */
  lemma NineEntries(o: Origin, e: LogEvent)
    requires PlainTime(e)
    ensures ReadMap(Markup("<map>\n", "<entry><string>", "</string><string>", "</string></entry>\n", "</map>\n"),
                    Body(o, e))
            == Some([Field("APPLICATION-ID", Escape(o.app)), Field("CREATETIME", e.timeString),
                     Field("HOST", OrUnknown(o.host)), Field("NAME", Escape(e.function_name)),
                     Field("SEVERITY", LevelString(e.level)), Field("TEXT", Escape(e.message)), Field("TYPE", "log"),
                     Field("USER", OrUnknown(o.user)), Field("CLASS", Escape(e.subsystem))])
  {
    BodyReadsBack(o, e);
    FieldsAre(o, e);
  }

  lemma FieldsAre(o: Origin, e: LogEvent)
    ensures Fields(o, e)
            == [Field("APPLICATION-ID", Escape(o.app)), Field("CREATETIME", e.timeString),
                Field("HOST", OrUnknown(o.host)), Field("NAME", Escape(e.function_name)),
                Field("SEVERITY", LevelString(e.level)), Field("TEXT", Escape(e.message)), Field("TYPE", "log"),
                Field("USER", OrUnknown(o.user)), Field("CLASS", Escape(e.subsystem))]
  {
    KeysAre();
    ValuesInOrder(o, e);
    var keys := seq(|NAMES|, i requires 0 <= i < |NAMES| => Key(NAMES[i]));
    assert forall i :: 0 <= i < |NAMES| ==> Fields(o, e)[i].key == keys[i];
  }

  lemma KeysAre()
    ensures seq(|NAMES|, i requires 0 <= i < |NAMES| => Key(NAMES[i]))
            == ["APPLICATION-ID", "CREATETIME", "HOST", "NAME", "SEVERITY", "TEXT", "TYPE", "USER", "CLASS"]
  {
  }

  lemma BodyNulFree(o: Origin, e: LogEvent)
    requires PlainTime(e)
    ensures '\0' !in Body(o, e)
  {
    FieldsAreClean(o, e);
    EntriesNulFree(XML, Fields(o, e));
  }

  // ---------- the packet as a frame ----------

  function HeaderFields(path: string, receipt: nat): seq<(string, string)> {
    [("destination", "/topic/" + path), ("transformation", "jms-map-xml"), ("receipt", Decimal(receipt))]
  }

  function AsSent(path: string, receipt: nat, o: Origin, e: LogEvent): Sent {
    Sent(0, "SEND", HeaderFields(path, receipt), Body(o, e))
  }

  lemma JoinThree(a: string, b: string, c: string)
    ensures Join([a, b, c], '\n') == a + "\n" + (b + "\n" + (c + "\n"))
  {
    assert [a, b, c][1..] == [b, c] && [b, c][1..] == [c] && [c][1..] == [];
    assert Join([c], '\n') == c + "\n";
    assert Join([b, c], '\n') == b + "\n" + (c + "\n");
  }

  lemma Regroup(send: string, nl: string, dest: string, path: string, b: string, r: string, d: string, body: string)
    ensures send + nl + dest + path + (nl + b + nl + r + d + nl + nl) + body
            == send + nl + (dest + path + nl + (b + nl + (r + d + nl))) + nl + body
  {
  }

  lemma HeaderIsPrinted(path: string, receipt: nat, body: string)
    ensures Header(path, receipt) + body == PrintFrame("SEND", HeaderLines(HeaderFields(path, receipt)), body)
  {
    var d := Decimal(receipt);
    HeaderLinesAre(path, receipt);
    JoinThree(DESTINATION + path, TRANSFORMATION, RECEIPT + d);
    Regroup("SEND", "\n", DESTINATION, path, TRANSFORMATION, RECEIPT, d, body);
    assert "SEND\n" == "SEND" + "\n";
  }

  lemma HeaderLinesAre(path: string, receipt: nat)
    ensures HeaderLines(HeaderFields(path, receipt)) == [DESTINATION + path, TRANSFORMATION, RECEIPT + Decimal(receipt)]
  {
    assert "destination" + ":" + ("/topic/" + path) == DESTINATION + path;
    assert "transformation" + ":" + "jms-map-xml" == TRANSFORMATION;
    assert "receipt" + ":" == RECEIPT;
  }

  lemma DigitsArePlain(n: nat)
    ensures '\n' !in Decimal(n) && '\0' !in Decimal(n) && ':' !in Decimal(n)
  {
    ValueOfDecimal(n);
  }

  /** A destination path a frame can carry. */
  predicate PlainPath(path: string) {
    '\n' !in path && '\0' !in path
  }

  lemma HeadersArePlain(path: string, receipt: nat)
    requires PlainPath(path)
    ensures var h := HeaderFields(path, receipt); forall i :: 0 <= i < |h| ==> PlainHeader(h[i])
  {
    DigitsArePlain(receipt);
    var h := HeaderFields(path, receipt);
    assert PlainHeader(h[0]);
    assert PlainHeader(h[1]);
    assert PlainHeader(h[2]);
  }

  lemma SentIsWellFormed(path: string, receipt: nat, o: Origin, e: LogEvent)
    requires PlainPath(path) && PlainTime(e)
    ensures WellFormed(AsSent(path, receipt, o, e))
  {
    BodyNulFree(o, e);
    HeadersArePlain(path, receipt);
  }

  /** The three headers a receiver sees. */
  lemma HeadersOfPacket(path: string, receipt: nat)
    ensures FirstValues(HeaderFields(path, receipt))
            == map["destination" := "/topic/" + path, "transformation" := "jms-map-xml", "receipt" := Decimal(receipt)]
  {
    var h := HeaderFields(path, receipt);
    assert h[1..][1..] == [h[2]] && [h[2]][1..] == [];
    assert FirstValues([h[2]]) == map["receipt" := Decimal(receipt)];
    assert FirstValues(h[1..]) == map["receipt" := Decimal(receipt), "transformation" := "jms-map-xml"];
  }

  /** What the receiver of the packet should make of it. */
  function Intended(path: string, receipt: nat, o: Origin, e: LogEvent): Reply {
    Reply("SEND", FirstValues(HeaderFields(path, receipt)), Body(o, e))
  }

  /** The packet is one frame: its one NUL is its last byte, and the rest parses as intended. */
  ghost predicate OneFrameAsIntended(path: string, receipt: nat, o: Origin, e: LogEvent) {
    var p := Packet(path, receipt, o, e);
    var frame := p[..|p| - 1];
    p[|p| - 1] == '\0' && '\0' !in frame && ParseFrame(frame) == Some(Intended(path, receipt, o, e))
  }

  lemma PacketText(path: string, receipt: nat, o: Origin, e: LogEvent)
    ensures var p := Packet(path, receipt, o, e);
            p == FrameText(AsSent(path, receipt, o, e)) + "\0" && p[..|p| - 1] == FrameText(AsSent(path, receipt, o, e))
  {
    HeaderIsPrinted(path, receipt, Body(o, e));
  }

  /** SEND packets are self-delimiting, and a reader in this sink's own form queues exactly the
      frame that was meant. */
  lemma PacketIsOneFrame(path: string, receipt: nat, o: Origin, e: LogEvent)
    requires PlainPath(path) && PlainTime(e)
    ensures OneFrameAsIntended(path, receipt, o, e)
    ensures OnBytes(Decoder("", [], true), Packet(path, receipt, o, e))
            == Decoder("", [Intended(path, receipt, o, e)], true)
  {
    var m := AsSent(path, receipt, o, e);
    SentIsWellFormed(path, receipt, o, e);
    PacketText(path, receipt, o, e);
    FrameNulFree(m);
    WellFormedParses(m);
    AloneOnTheWire(m);
  }

  lemma AloneOnTheWire(m: Sent)
    requires WellFormed(m) && m.command != "" && m.beats == 0
    ensures OnBytes(Decoder("", [], true), FrameText(m) + "\0") == Decoder("", [ReplyOf(m)], true)
  {
    OneFrame(Decoder("", [], true), m);
    assert Beats(0) + FrameText(m) == FrameText(m);
    assert [] + [ReplyOf(m)] == [ReplyOf(m)];
  }

  lemma NulInPath(before: string, path: string, after: string)
    requires '\0' in path && after != ""
    ensures var p := before + path + after; '\0' in p[..|p| - 1]
  {
    var i :| 0 <= i < |path| && path[i] == '\0';
    var p := before + path + after;
    assert p[..|p| - 1][|before| + i] == '\0';
  }

  lemma {:induction false} ParsedValuesAreLines(acc: map<string, string>, lines: seq<string>)
    requires forall i :: 0 <= i < |lines| ==> HeaderLine(lines[i])
    requires forall k :: k in acc ==> '\n' !in acc[k]
    ensures forall k :: k in AddLines(acc, lines) ==> '\n' !in AddLines(acc, lines)[k]
    decreases |lines|
  {
    if lines != [] {
      HasColon(lines[0]);
      ParsedValuesAreLines(AddHeader(acc, KeyOf(lines[0]), ValueOf(lines[0])), lines[1..]);
    }
  }

  lemma NulSpoilsThePacket(path: string, receipt: nat, o: Origin, e: LogEvent)
    requires '\0' in path
    ensures !OneFrameAsIntended(path, receipt, o, e)
  {
    var before, after := "SEND\n" + DESTINATION, HeaderEnd(receipt) + Body(o, e) + "\0";
    NulInPath(before, path, after);
    RegroupPacket(before, path, HeaderEnd(receipt), Body(o, e), "\0");
  }

  lemma RegroupPacket(before: string, path: string, end: string, body: string, nul: string)
    ensures before + path + end + body + nul == before + path + (end + body + nul)
  {
  }

  /** No parsed header value contains a line feed. */
  lemma ParsedValues(frame: string, key: string)
    requires ParseFrame(frame).Some? && key in ParseFrame(frame).value.headers
    ensures '\n' !in ParseFrame(frame).value.headers[key]
  {
    var lines := AcceptedIsPrinted(frame);
    ParsedValuesAreLines(map[], lines);
  }

  lemma DestinationHeader(path: string, receipt: nat)
    ensures var h := FirstValues(HeaderFields(path, receipt));
            "destination" in h && h["destination"] == "/topic/" + path
  {
    assert HeaderFields(path, receipt)[0] == ("destination", "/topic/" + path);
  }

  lemma LfSpoilsThePacket(path: string, receipt: nat, o: Origin, e: LogEvent)
    requires '\n' in path
    ensures !OneFrameAsIntended(path, receipt, o, e)
  {
    DestinationHeader(path, receipt);
    LfInDestination(path);
    var p := Packet(path, receipt, o, e);
    LfSpoils(p[..|p| - 1], Intended(path, receipt, o, e), "destination");
  }

  lemma LfSpoils(frame: string, r: Reply, key: string)
    requires key in r.headers && '\n' in r.headers[key]
    ensures ParseFrame(frame) != Some(r)
  {
    if ParseFrame(frame) == Some(r) { ParsedValues(frame, key); }
  }

  lemma LfInDestination(path: string)
    requires '\n' in path
    ensures '\n' in "/topic/" + path
  {
    var i :| 0 <= i < |path| && path[i] == '\n';
    assert ("/topic/" + path)[|"/topic/"| + i] == '\n';
  }

  /** The packet is what was meant exactly when the destination path contains neither a NUL nor a
      line feed. */
  lemma IntendedIffPlainPath(path: string, receipt: nat, o: Origin, e: LogEvent)
    requires PlainTime(e)
    ensures OneFrameAsIntended(path, receipt, o, e) <==> PlainPath(path)
  {
    if PlainPath(path) {
      PacketIsOneFrame(path, receipt, o, e);
    } else if '\0' in path {
      NulSpoilsThePacket(path, receipt, o, e);
    } else {
      LfSpoilsThePacket(path, receipt, o, e);
    }
  }

  // ---------- end to end ----------

  function Lookup(fields: seq<Field>, key: string): Option<string> {
    if fields == [] then None
    else if fields[0].key == key then Some(fields[0].value)
    else Lookup(fields[1..], key)
  }

  /** What a receiver finds under a key: decode the bytes, read the body of the one frame, look the key
      up, and resolve the entities. */
  function ReceivedField(packet: string, key: string): Option<string> {
    var replies := OnBytes(Decoder("", [], true), packet).replies;
    if |replies| != 1 then None else
    match ReadMap(XML, replies[0].body)
    case None => None
    case Some(fields) =>
      match Lookup(fields, key)
      case None => None
      case Some(value) => Some(Unescape(value))
  }

  function KnownOr(name: Option<string>): string {
    match name
    case None => "/UNKNOWN/"
    case Some(s) => SpellNul(s)
  }

  /** What it should find there. */
  function Original(o: Origin, e: LogEvent, name: Name): string {
    match name
    case ApplicationId => SpellNul(o.app)
    case CreateTime => e.timeString
    case Host => KnownOr(o.host)
    case Function => SpellNul(e.function_name)
    case Severity => LevelString(e.level)
    case Message => SpellNul(e.message)
    case Type => "log"
    case User => KnownOr(o.user)
    case Class => SpellNul(e.subsystem)
  }

  lemma {:induction false} UnescapeUnmarked(s: string)
    requires '&' !in s
    ensures Unescape(s) == s
    decreases |s|
  {
    if s != "" {
      UnescapePlain(s[0], s[1..]);
      UnescapeUnmarked(s[1..]);
      assert s == [s[0]] + s[1..];
    }
  }

  lemma UnescapeName(name: Option<string>)
    ensures Unescape(OrUnknown(name)) == KnownOr(name)
  {
    match name
    case None => UnescapeUnmarked("/UNKNOWN/");
    case Some(s) => UnescapeEscape(s);
  }

  lemma UnescapeValue(o: Origin, e: LogEvent, name: Name)
    requires PlainTime(e)
    ensures Unescape(ValueFor(o, e, name)) == Original(o, e, name)
  {
    match name
    case ApplicationId => UnescapeEscape(o.app);
    case CreateTime => UnescapeUnmarked(e.timeString);
    case Host => UnescapeName(o.host);
    case Function => UnescapeEscape(e.function_name);
    case Severity => UnescapeUnmarked(LevelString(e.level));
    case Message => UnescapeEscape(e.message);
    case Type => UnescapeUnmarked("log");
    case User => UnescapeName(o.user);
    case Class => UnescapeEscape(e.subsystem);
  }

  lemma {:induction false} LookupFirst(fields: seq<Field>, i: nat)
    requires i < |fields| && forall j :: 0 <= j < i ==> fields[j].key != fields[i].key
    ensures Lookup(fields, fields[i].key) == Some(fields[i].value)
    decreases |fields|
  {
    if i > 0 {
      assert fields[1..][i - 1] == fields[i];
      LookupFirst(fields[1..], i - 1);
    }
  }

  function Position(name: Name): (i: nat)
    ensures i < |NAMES| && NAMES[i] == name
  {
    match name
    case ApplicationId => 0
    case CreateTime => 1
    case Host => 2
    case Function => 3
    case Severity => 4
    case Message => 5
    case Type => 6
    case User => 7
    case Class => 8
  }

  lemma KeysDiffer(i: nat, j: nat)
    requires i < j < |NAMES|
    ensures Key(NAMES[i]) != Key(NAMES[j])
  {
    assert Key(Message)[1] == 'E' && Key(Type)[1] == 'Y';
    assert |Key(CreateTime)| == 10 && |Key(Class)| == 5;
  }

  lemma FieldIsFound(o: Origin, e: LogEvent, name: Name)
    ensures Lookup(Fields(o, e), Key(name)) == Some(ValueFor(o, e, name))
  {
    var fields, i := Fields(o, e), Position(name);
    forall j | 0 <= j < i ensures fields[j].key != fields[i].key {
      KeysDiffer(j, i);
    }
    LookupFirst(fields, i);
  }

  /** Every entry arrives: what the receiver of the bytes finds under its key is the text of the event
      or of the process, NULs spelled out. */
  lemma EveryFieldArrives(path: string, receipt: nat, o: Origin, e: LogEvent, name: Name)
    requires PlainPath(path) && PlainTime(e)
    ensures ReceivedField(Packet(path, receipt, o, e), Key(name)) == Some(Original(o, e, name))
  {
    PacketIsOneFrame(path, receipt, o, e);
    BodyReadsBack(o, e);
    FieldIsFound(o, e, name);
    UnescapeValue(o, e, name);
  }

  /** What a receiver is to find, by the keys' own texts. */
  predicate FoundByKey(found: string -> Option<string>, o: Origin, e: LogEvent) {
    && found("APPLICATION-ID") == Some(SpellNul(o.app))
    && found("CREATETIME") == Some(e.timeString)
    && found("HOST") == Some(if o.host.Some? then SpellNul(o.host.value) else "/UNKNOWN/")
    && found("NAME") == Some(SpellNul(e.function_name))
    && found("SEVERITY") == Some(match e.level
                                 case Finest => "FINEST"
                                 case Finer => "FINER"
                                 case Fine => "FINE"
                                 case Config => "CONFIG"
                                 case Info => "INFO"
                                 case Warning => "WARNING"
                                 case Severe => "SEVERE")
    && found("TEXT") == Some(SpellNul(e.message))
    && found("TYPE") == Some("log")
    && found("USER") == Some(if o.user.Some? then SpellNul(o.user.value) else "/UNKNOWN/")
    && found("CLASS") == Some(SpellNul(e.subsystem))
  }

  lemma KeysSpelledOut(found: string -> Option<string>, o: Origin, e: LogEvent)
    requires forall name: Name :: found(Key(name)) == Some(Original(o, e, name))
    ensures FoundByKey(found, o, e)
  {
    assert Key(ApplicationId) == "APPLICATION-ID" && Key(CreateTime) == "CREATETIME" && Key(Host) == "HOST";
    assert Key(Function) == "NAME" && Key(Severity) == "SEVERITY" && Key(Message) == "TEXT";
    assert Key(Type) == "TYPE" && Key(User) == "USER" && Key(Class) == "CLASS";
  }

  /** What the receiver finds under each key. */
  lemma EveryKeyArrives(path: string, receipt: nat, o: Origin, e: LogEvent)
    requires PlainPath(path) && PlainTime(e)
    ensures FoundByKey(key => ReceivedField(Packet(path, receipt, o, e), key), o, e)
  {
    var found := key => ReceivedField(Packet(path, receipt, o, e), key);
    forall name: Name ensures found(Key(name)) == Some(Original(o, e, name)) {
      EveryFieldArrives(path, receipt, o, e, name);
    }
    KeysSpelledOut(found, o, e);
  }

  /** The message arrives unchanged exactly if it is free of NUL. */
  lemma MessageArrivesIff(path: string, receipt: nat, o: Origin, e: LogEvent)
    requires PlainPath(path) && PlainTime(e)
    ensures ReceivedField(Packet(path, receipt, o, e), "TEXT") == Some(e.message) <==> '\0' !in e.message
  {
    EveryKeyArrives(path, receipt, o, e);
    SpellNulIdentity(e.message);
  }

  /** The receiver sees one SEND with exactly these three headers. */
  lemma HeadersArrive(path: string, receipt: nat, o: Origin, e: LogEvent)
    requires PlainPath(path) && PlainTime(e)
    ensures var replies := OnBytes(Decoder("", [], true), Packet(path, receipt, o, e)).replies;
            && |replies| == 1 && replies[0].command == "SEND"
            && replies[0].headers == map["destination" := "/topic/" + path, "transformation" := "jms-map-xml",
                                         "receipt" := Decimal(receipt)]
  {
    PacketIsOneFrame(path, receipt, o, e);
    HeadersOfPacket(path, receipt);
  }
}
