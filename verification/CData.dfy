/** `formatCData` of output_stream_file.cpp: text of any content as CDATA sections
    (section 2.7 of XML 1.0). */
module CData {
  import opened Wrappers
  import opened Text

  /** The start and the end mark of a section. */
  datatype Marks = Marks(start: string, end: string)

  const XML := Marks("<![CDATA[", "]]>")

  function Section(m: Marks, content: string): string {
    m.start + content + m.end
  }

  function Sections(m: Marks, contents: seq<string>): string {
    if contents == [] then "" else Section(m, contents[0]) + Sections(m, contents[1..])
  }

  /** Where the data from `pos` on is cut: behind the first two characters of every end mark. */
  function CutFrom(m: Marks, data: string, pos: nat): seq<string>
    requires |m.end| > 2 && pos <= |data|
    decreases |data| - pos
  {
    match FindText(data, m.end, pos)
    case None => [data[pos..]]
    case Some(i) => [data[pos..i + 2]] + CutFrom(m, data, i + 2)
  }

  /** What is still to be written once the sections so far and the latest start mark are out. */
  function Opened(m: Marks, contents: seq<string>): string {
    if contents == [] then "" else contents[0] + m.end + Sections(m, contents[1..])
  }

  lemma SectionsOpened(m: Marks, contents: seq<string>)
    requires contents != []
    ensures Sections(m, contents) == m.start + Opened(m, contents)
  {
    Assoc(m.start, contents[0], m.end);
    Assoc(m.start, contents[0] + m.end, Sections(m, contents[1..]));
  }

  lemma OpenedStep(m: Marks, content: string, more: seq<string>)
    requires more != []
    ensures Opened(m, [content] + more) == content + (m.end + m.start) + Opened(m, more)
  {
    assert ([content] + more)[1..] == more;
    SectionsOpened(m, more);
    Regroup(content, m.end, m.start, Opened(m, more));
  }

  /** What is still to be written when the loop has come to `pos`. */
  function Remaining(m: Marks, data: string, pos: nat): string
    requires |m.end| > 2 && pos <= |data|
  {
    Opened(m, CutFrom(m, data, pos))
  }

  /** One turn of the loop. */
  lemma CutTurn(m: Marks, data: string, pos: nat, i: nat, text: string)
    requires |m.end| > 2 && pos <= |data| && FindText(data, m.end, pos) == Some(i)
    ensures i + 2 < |data|
    ensures text + Remaining(m, data, pos)
            == text + data[pos..i + 2] + (m.end + m.start) + Remaining(m, data, i + 2)
  {
    var piece, more := data[pos..i + 2], CutFrom(m, data, i + 2);
    OpenedStep(m, piece, more);
    Assoc(text, piece + (m.end + m.start), Opened(m, more));
    Assoc(text, piece, m.end + m.start);
  }

  lemma CutLast(m: Marks, data: string, pos: nat, text: string)
    requires |m.end| > 2 && pos <= |data| && FindText(data, m.end, pos) == None
    ensures text + Remaining(m, data, pos) == text + data[pos..] + m.end
  {
    var rest := data[pos..];
    assert [rest][1..] == [] && Opened(m, [rest]) == rest + m.end + "" == rest + m.end;
    Assoc(text, rest, m.end);
  }

  /** The loop; `goal` is what the complete text will be. */
  method FormatRest(m: Marks, data: string, ghost goal: string) returns (text: string)
    requires |m.end| > 2 && m.start + Remaining(m, data, 0) == goal
    ensures text == goal
  {
    text := m.start;
    var pos: nat := 0;
    var i := FindText(data, m.end, pos);
    while i.Some?
      invariant pos <= |data| && i == FindText(data, m.end, pos)
      invariant text + Remaining(m, data, pos) == goal
      decreases |data| - pos
    {
      CutTurn(m, data, pos, i.value, text);
      text := text + data[pos..i.value + 2];
      text := text + (m.end + m.start);
      pos := i.value + 2;
      i := FindText(data, m.end, pos);
    }
    CutLast(m, data, pos, text);
    text := text + data[pos..];
    text := text + m.end;
  }

  method FormatSections(m: Marks, data: string) returns (text: string)
    requires |m.end| > 2
    ensures text == Sections(m, CutFrom(m, data, 0))
  {
    SectionsOpened(m, CutFrom(m, data, 0));
    text := FormatRest(m, data, m.start + Remaining(m, data, 0));
  }

  /** The text written for a message. */
  function CData(data: string): string {
    Sections(XML, CutFrom(XML, data, 0))
  }

  method FormatCData(data: string) returns (text: string)
    ensures text == CData(data)
  {
    text := FormatSections(XML, data);
  }

  // ---------- an independent reader ----------

  /** Strips a start mark, reads to the first end mark, and goes on. */
  function Decode(m: Marks, text: string): Option<string>
    decreases |text|
  {
    if text == "" then Some("")
    else if !(m.start <= text) then None
    else
      var rest := text[|m.start|..];
      match FindText(rest, m.end, 0)
      case None => None
      case Some(i) =>
        if |m.start| + |m.end| == 0 then None else
        match Decode(m, rest[i + |m.end|..])
        case None => None
        case Some(more) => Some(rest[..i] + more)
  }

  /** Free of the end mark. */
  predicate Unmarked(content: string) {
    FindText(content, XML.end, 0) == None
  }

  /** An end mark behind unmarked content is the first one, even if the content ends in brackets. */
  lemma FirstEnd(content: string, rest: string)
    requires Unmarked(content)
    ensures FindText(content + XML.end + rest, XML.end, 0) == Some(|content|)
  {
    var s := content + XML.end + rest;
    forall k: nat | k < |content| ensures !IsAt(s, XML.end, k) {
      FindTextFirst(content, XML.end, 0, k);
      IsAtThree(s, XML.end, k);
      IsAtThree(content, XML.end, k);
    }
    IsAtThree(s, XML.end, |content|);
    FindTextIs(s, XML.end, 0, |content|);
  }

  /** What follows the start mark of a section. */
  lemma AfterStart(m: Marks, content: string, rest: string)
    ensures var text := Section(m, content) + rest;
            m.start <= text && text[|m.start|..] == content + m.end + rest
  {
    assert Section(m, content) + rest == m.start + (content + m.end + rest);
  }

  lemma AfterEnd(content: string, end: string, rest: string)
    ensures var s := content + end + rest; s[..|content|] == content && s[|content| + |end|..] == rest
  {
  }

  lemma DecodeSection(content: string, rest: string)
    requires Unmarked(content)
    ensures Decode(XML, Section(XML, content) + rest)
            == match Decode(XML, rest) case None => None case Some(more) => Some(content + more)
  {
    AfterStart(XML, content, rest);
    FirstEnd(content, rest);
    AfterEnd(content, XML.end, rest);
  }

  lemma {:induction false} DecodeSections(contents: seq<string>)
    requires forall content :: content in contents ==> Unmarked(content)
    ensures Decode(XML, Sections(XML, contents)) == Some(Flatten(contents))
  {
    if contents != [] {
      DecodeSection(contents[0], Sections(XML, contents[1..]));
      DecodeSections(contents[1..]);
    }
  }

  lemma CutPiece(data: string, pos: nat, i: nat)
    requires FindText(data, XML.end, pos) == Some(i)
    ensures i + 3 <= |data| && Unmarked(data[pos..i + 2])
  {
    var piece := data[pos..i + 2];
    match FindText(piece, XML.end, 0)
    case None =>
    case Some(k) =>
      IsAtThree(piece, XML.end, k);
      IsAtThree(data, XML.end, pos + k);
      FindTextFirst(data, XML.end, pos, pos + k);
  }

  lemma LastPiece(data: string, pos: nat)
    requires pos <= |data| && FindText(data, XML.end, pos) == None
    ensures Unmarked(data[pos..])
  {
    FindTextShift(data, XML.end, pos, pos);
  }

  /** No section contains an end mark. */
  lemma {:induction false} SectionsUnmarked(data: string, pos: nat)
    requires pos <= |data|
    ensures forall content :: content in CutFrom(XML, data, pos) ==> Unmarked(content)
    decreases |data| - pos
  {
    match FindText(data, XML.end, pos)
    case None => LastPiece(data, pos);
    case Some(i) =>
      CutPiece(data, pos, i);
      SectionsUnmarked(data, i + 2);
  }

  /** Each piece but the last ends in two brackets, and the next one starts with '>'. */
  ghost predicate InsideMarks(cut: seq<string>) {
    && (forall i :: 0 <= i < |cut| - 1 ==> |cut[i]| >= 2 && cut[i][|cut[i]| - 2..] == "]]")
    && (forall i :: 0 < i < |cut| ==> ">" <= cut[i])
  }

  lemma PieceInFront(piece: string, more: seq<string>)
    requires |piece| >= 2 && piece[|piece| - 2..] == "]]" && more != [] && ">" <= more[0] && InsideMarks(more)
    ensures InsideMarks([piece] + more)
  {
  }

  lemma MarkCut(data: string, pos: nat, i: nat)
    requires pos <= i && IsAt(data, "]]>", i)
    ensures i + 2 < |data| && data[i + 2] == '>'
    ensures var piece := data[pos..i + 2]; |piece| >= 2 && piece[|piece| - 2..] == "]]"
  {
    IsAtThree(data, "]]>", i);
    assert data[pos..i + 2][i - pos..] == [data[i], data[i + 1]] == "]]";
  }

  /** The first piece starts where the cutting does. */
  lemma FirstPiece(data: string, pos: nat)
    requires pos < |data|
    ensures var cut := CutFrom(XML, data, pos); cut != [] && [data[pos]] <= cut[0]
  {
  }

  /** Every cut lies inside an end mark, between its second bracket and the '>'. */
  lemma {:induction false} CutsInsideMarks(data: string, pos: nat)
    requires pos <= |data|
    ensures InsideMarks(CutFrom(XML, data, pos))
    decreases |data| - pos
  {
    match FindText(data, XML.end, pos)
    case None =>
    case Some(i) =>
      MarkCut(data, pos, i);
      FirstPiece(data, i + 2);
      CutsInsideMarks(data, i + 2);
      PieceInFront(data[pos..i + 2], CutFrom(XML, data, i + 2));
      CutAt(data, pos, i);
  }

  lemma CutAt(data: string, pos: nat, i: nat)
    requires pos <= |data| && FindText(data, XML.end, pos) == Some(i)
    ensures CutFrom(XML, data, pos) == [data[pos..i + 2]] + CutFrom(XML, data, i + 2)
  {
  }

  lemma FlattenPiece(piece: string, more: seq<string>)
    ensures Flatten([piece] + more) == piece + Flatten(more)
  {
    assert ([piece] + more)[1..] == more;
  }

  lemma FlattenLast(piece: string)
    ensures Flatten([piece]) == piece
  {
    assert [piece][1..] == [];
  }

  lemma Rejoin(s: string, from: nat, to: nat)
    requires from <= to <= |s|
    ensures s[from..] == s[from..to] + s[to..]
  {
  }

  /** Cutting loses nothing. */
  lemma {:induction false} CutLosesNothing(data: string, pos: nat)
    requires pos <= |data|
    ensures Flatten(CutFrom(XML, data, pos)) == data[pos..]
    decreases |data| - pos
  {
    match FindText(data, XML.end, pos)
    case None => FlattenLast(data[pos..]);
    case Some(i) =>
      CutLosesNothing(data, i + 2);
      FlattenPiece(data[pos..i + 2], CutFrom(XML, data, i + 2));
      Rejoin(data, pos, i + 2);
  }

  /** Round trip for every input, overlapping bracket runs included. */
  lemma CDataRoundTrip(data: string)
    ensures Decode(Marks("<![CDATA[", "]]>"), CData(data)) == Some(data)
  {
    CutLosesNothing(data, 0);
    SectionsUnmarked(data, 0);
    DecodeSections(CutFrom(XML, data, 0));
  }
}
