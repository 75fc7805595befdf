/** The line output_stream_file.cpp writes for an event. */
module FileLines {
  import opened Wrappers
  import opened LogEvents
  import opened Tags
  import CData

  /** `level_name` */
  function LevelName(level: Level): string {
    match level
    case Finest => "finest"
    case Finer => "finer"
    case Fine => "fine"
    case Config => "config"
    case Info => "info"
    case Warning => "warning"
    case Severe => "severe"
  }

  const START := "<message level=\""
  const TAGS: seq<string> := ["\"><time>", "</time><subsystem>", "</subsystem><function>", "</function><text>"]
  const END := "</text></message>\n"

  function Attributes(e: LogEvent): seq<string> {
    [LevelName(e.level), e.timeString, e.subsystem, e.function_name]
  }

  /** Only the message is protected; the other texts are written as they are. */
  function Line(e: LogEvent): string {
    Compose(START, TAGS, END, Attributes(e), e.message)
  }

  function Compose(start: string, tags: seq<string>, end: string, texts: seq<string>, message: string): string
    requires |texts| == |tags|
  {
    start + (Laid(texts, tags) + (CData.CData(message) + end))
  }

  // ---------- an independent reader ----------

  function ReadLine(start: string, tags: seq<string>, end: string, s: string): Option<(seq<string>, string)> {
    match After(s, start)
    case None => None
    case Some(s1) =>
      match Peel(s1, tags)
      case None => None
      case Some((texts, s2)) =>
        match Before(s2, end)
        case None => None
        case Some(sections) =>
          match CData.Decode(CData.XML, sections)
          case None => None
          case Some(message) => Some((texts, message))
  }

  lemma ReadsBack(start: string, tags: seq<string>, end: string, texts: seq<string>, message: string)
    requires |texts| == |tags| && forall i :: 0 <= i < |tags| ==> tags[i] != "" && tags[i][0] !in texts[i]
    ensures ReadLine(start, tags, end, Compose(start, tags, end, texts, message)) == Some((texts, message))
  {
    var tail := CData.CData(message) + end;
    AfterPrefix(start, Laid(texts, tags) + tail);
    PeelLaid(texts, tags, tail);
    BeforeSuffix(CData.CData(message), end);
    CData.CDataRoundTrip(message);
  }

  lemma OnlyCleanIsRead(start: string, tags: seq<string>, end: string, s: string)
    requires ReadLine(start, tags, end, s).Some?
    ensures var texts := ReadLine(start, tags, end, s).value.0;
            |texts| == |tags| && forall i :: 0 <= i < |tags| ==> tags[i] != "" && tags[i][0] !in texts[i]
  {
    PeeledIsClean(After(s, start).value, tags);
  }

  lemma TagStarts()
    ensures TAGS[0][0] == '"' && TAGS[1][0] == '<' && TAGS[2][0] == '<' && TAGS[3][0] == '<'
  {
  }

  /** A line reads back, from between these very tags and with its message whatever that contains,
      exactly if the texts written unescaped contain no tag. */
  lemma LineReadsBackIff(e: LogEvent)
    ensures var level := match e.level
                         case Finest => "finest"
                         case Finer => "finer"
                         case Fine => "fine"
                         case Config => "config"
                         case Info => "info"
                         case Warning => "warning"
                         case Severe => "severe";
            ReadLine("<message level=\"",
                     ["\"><time>", "</time><subsystem>", "</subsystem><function>", "</function><text>"],
                     "</text></message>\n", Line(e))
            == Some(([level, e.timeString, e.subsystem, e.function_name], e.message))
            <==> '<' !in e.timeString && '<' !in e.subsystem && '<' !in e.function_name
  {
    var texts := Attributes(e);
    TagStarts();
    assert '"' !in texts[0];
    if '<' !in e.timeString && '<' !in e.subsystem && '<' !in e.function_name {
      ReadsBack(START, TAGS, END, texts, e.message);
    }
    if ReadLine(START, TAGS, END, Line(e)) == Some((texts, e.message)) {
      OnlyCleanIsRead(START, TAGS, END, Line(e));
      assert TAGS[1][0] !in texts[1] && TAGS[2][0] !in texts[2] && TAGS[3][0] !in texts[3];
    }
  }
}
