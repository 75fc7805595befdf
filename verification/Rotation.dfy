/** Where the lines of output_stream_file.cpp end up: the size bound, the rotations it causes and
    the names of the archived files. */
module Rotation {
  import opened Text
  import opened Timestamp

  const HEADER := "<logfile>\n"
  const FOOTER := "</logfile>\n"

  /** A file that is being written. */
  function OpenText(lines: seq<string>): string {
    HEADER + Flatten(lines)
  }

  /** A file that was closed. */
  function ClosedText(lines: seq<string>): string {
    OpenText(lines) + FOOTER
  }

  /** The position of a stream that holds these lines. */
  function Size(lines: seq<string>): nat {
    10 + |Flatten(lines)|
  }

  lemma Sizes(lines: seq<string>)
    ensures |OpenText(lines)| == Size(lines) && |ClosedText(lines)| == Size(lines) + 11
  {
  }

  lemma FlattenSnoc(lines: seq<string>, line: string)
    ensures Flatten(lines + [line]) == Flatten(lines) + line
  {
    FlattenConcat(lines, [line]);
    assert Flatten([line]) == line + "" == line;
  }

  lemma OpenTextSnoc(lines: seq<string>, line: string)
    ensures OpenText(lines + [line]) == OpenText(lines) + line
  {
    FlattenSnoc(lines, line);
    Assoc(HEADER, Flatten(lines), line);
  }

  /** The lines of the closed files, of the current one, and whether there is a current one. */
  datatype Log = Log(closed: seq<seq<string>>, current: seq<string>, open: bool)

  /** One call of `do_write`; whether the file system lets it open a file, the first time when no
      file is open, the second time in a rotation. */
  datatype Attempt = Attempt(line: string, first: bool, second: bool)

  predicate Overflows(lines: seq<string>, line: string, maxsize: int) {
    Size(lines) + |line| + 12 > maxsize
  }

  /** The line was written exactly if the result is open. */
  function Append(log: Log, a: Attempt, maxsize: int): Log {
    if !log.open && !a.first then log
    else if !Overflows(log.current, a.line, maxsize) then Log(log.closed, log.current + [a.line], true)
    else if a.second then Log(log.closed + [log.current], [a.line], true)
    else Log(log.closed + [log.current], [], false)
  }

  /** Any number of calls, the first one with no line written yet. */
  function Run(open: bool, attempts: seq<Attempt>, maxsize: int): Log {
    if attempts == [] then Log([], [], open)
    else Append(Run(open, attempts[..|attempts| - 1], maxsize), attempts[|attempts| - 1], maxsize)
  }

  /** The lines for which `do_write` returned true. */
  function Accepted(open: bool, attempts: seq<Attempt>, maxsize: int): seq<string> {
    if attempts == [] then []
    else
      var n := |attempts| - 1;
      Accepted(open, attempts[..n], maxsize) + (if Run(open, attempts, maxsize).open then [attempts[n].line] else [])
  }

  function LinesOf(blocks: seq<seq<string>>): seq<string> {
    if blocks == [] then [] else LinesOf(blocks[..|blocks| - 1]) + blocks[|blocks| - 1]
  }

  lemma LinesOfSnoc(blocks: seq<seq<string>>, lines: seq<string>)
    ensures LinesOf(blocks + [lines]) == LinesOf(blocks) + lines
  {
    assert (blocks + [lines])[..|blocks|] == blocks;
  }

  lemma AppendKeeps(log: Log, a: Attempt, maxsize: int)
    requires log.open || log.current == []
    ensures var log' := Append(log, a, maxsize);
            && (log'.open || log'.current == [])
            && LinesOf(log'.closed) + log'.current
               == LinesOf(log.closed) + log.current + (if log'.open then [a.line] else [])
  {
    LinesOfSnoc(log.closed, log.current);
  }

  /** The closed files in order, followed by the current one, hold exactly the accepted lines, in
      order, none split and none twice. */
  lemma {:induction false} NothingLostNothingSplit(open: bool, attempts: seq<Attempt>, maxsize: int)
    ensures var log := Run(open, attempts, maxsize);
            && (log.open || log.current == [])
            && LinesOf(log.closed) + log.current == Accepted(open, attempts, maxsize)
    decreases |attempts|
  {
    if attempts != [] {
      var n := |attempts| - 1;
      NothingLostNothingSplit(open, attempts[..n], maxsize);
      AppendKeeps(Run(open, attempts[..n], maxsize), attempts[n], maxsize);
    }
  }

  // ---------- the size bound ----------

  /** Room for the footer is left, even with a two-byte line end. */
  predicate Fits(lines: seq<string>, maxsize: int) {
    Size(lines) + 12 <= maxsize
  }

  predicate LineFits(line: string, maxsize: int) {
    |line| + 22 <= maxsize
  }

  ghost predicate AllFit(log: Log, maxsize: int) {
    Fits(log.current, maxsize) && forall lines :: lines in log.closed ==> Fits(lines, maxsize)
  }

  lemma FitsIff(lines: seq<string>, maxsize: int)
    ensures Fits(lines, maxsize) <==> |"<logfile>\n" + Flatten(lines) + "</logfile>\n"| + 1 <= maxsize
  {
    Sizes(lines);
  }

  lemma SizeSnoc(lines: seq<string>, line: string)
    ensures Size(lines + [line]) == Size(lines) + |line| && Size([]) == 10
  {
    FlattenSnoc(lines, line);
  }

  /** After every successful write the bound holds exactly if the line itself allows it. */
  lemma WriteFitsIff(log: Log, a: Attempt, maxsize: int)
    requires Append(log, a, maxsize).open && (log.open || log.current == []) && (log.open || a.first)
    ensures |OpenText(Append(log, a, maxsize).current)| + 12 <= maxsize <==> |a.line| + 22 <= maxsize
  {
    Sizes(Append(log, a, maxsize).current);
    SizeSnoc(log.current, a.line);
    SizeSnoc([], a.line);
    assert [] + [a.line] == [a.line];
  }

  /** A rotation takes place exactly if the line would take the open file, with room for the footer and a
      two-byte line end, beyond the limit; the line is written exactly if there is a file to write to. */
  lemma RotatesIff(log: Log, a: Attempt, maxsize: int)
    requires log.open || log.current == []
    ensures var log' := Append(log, a, maxsize);
            var full := |OpenText(log.current)| + |a.line| + 12 > maxsize;
            && (log'.closed == log.closed + [log.current] <==> (log.open || a.first) && full)
            && (log'.closed == log.closed <==> !((log.open || a.first) && full))
            && (log'.open <==> (log.open || a.first) && (full ==> a.second))
            && (log'.open ==> log'.current == (if full then [] else log.current) + [a.line])
  {
    Sizes(log.current);
    assert |log.closed + [log.current]| != |log.closed|;
  }

  lemma AppendFitsIff(log: Log, a: Attempt, maxsize: int)
    requires log.open || log.current == []
    ensures var log' := Append(log, a, maxsize);
            AllFit(log', maxsize) <==> AllFit(log, maxsize) && (log'.open ==> LineFits(a.line, maxsize))
  {
    SizeSnoc(log.current, a.line);
    SizeSnoc([], a.line);
    assert [] + [a.line] == [a.line];
    var log' := Append(log, a, maxsize);
    if log'.closed != log.closed {
      assert forall lines :: lines in log'.closed <==> lines in log.closed || lines == log.current;
    }
  }

  /** Every file of every run keeps the bound exactly if every accepted line is short enough. */
  lemma {:induction false} RunFitsIff(open: bool, attempts: seq<Attempt>, maxsize: int)
    ensures AllFit(Run(open, attempts, maxsize), maxsize)
            <==> 22 <= maxsize && forall line :: line in Accepted(open, attempts, maxsize) ==> |line| + 22 <= maxsize
    decreases |attempts|
  {
    if attempts != [] {
      var n := |attempts| - 1;
      RunFitsIff(open, attempts[..n], maxsize);
      NothingLostNothingSplit(open, attempts[..n], maxsize);
      AppendFitsIff(Run(open, attempts[..n], maxsize), attempts[n], maxsize);
    }
  }

  /** So no archived file is larger than the limit. */
  lemma ArchivesAreSmall(open: bool, attempts: seq<Attempt>, maxsize: int, lines: seq<string>)
    requires forall line :: line in Accepted(open, attempts, maxsize) ==> |line| + 22 <= maxsize
    requires 22 <= maxsize && lines in Run(open, attempts, maxsize).closed
    ensures |ClosedText(lines)| < maxsize
  {
    RunFitsIff(open, attempts, maxsize);
    Sizes(lines);
  }

  function Blocks(log: Log): seq<seq<string>> {
    log.closed + [log.current]
  }

  /** The file `lines` was closed because the first line of the next one did not fit. */
  predicate ClosedFor(lines: seq<string>, next: seq<string>, maxsize: int) {
    next != [] && Overflows(lines, next[0], maxsize)
  }

  /** No file is closed too early. */
  predicate Greedy(blocks: seq<seq<string>>, maxsize: int) {
    |blocks| < 2
    || (ClosedFor(blocks[|blocks| - 2], blocks[|blocks| - 1], maxsize) && Greedy(blocks[..|blocks| - 1], maxsize))
  }

  lemma GreedyNewBlock(blocks: seq<seq<string>>, line: string, maxsize: int)
    requires blocks != [] && Greedy(blocks, maxsize) && Overflows(blocks[|blocks| - 1], line, maxsize)
    ensures Greedy(blocks + [[line]], maxsize)
  {
    assert (blocks + [[line]])[..|blocks|] == blocks;
  }

  lemma GreedyNewLine(closed: seq<seq<string>>, current: seq<string>, line: string, maxsize: int)
    requires Greedy(closed + [current], maxsize)
    ensures Greedy(closed + [current + [line]], maxsize)
  {
    var blocks, blocks' := closed + [current], closed + [current + [line]];
    if closed != [] {
      assert blocks[..|closed|] == closed && blocks'[..|closed|] == closed;
      assert ClosedFor(closed[|closed| - 1], current, maxsize);
    }
  }

  lemma AppendGreedy(log: Log, a: Attempt, maxsize: int)
    requires log.open && a.second && Greedy(Blocks(log), maxsize)
    ensures Append(log, a, maxsize).open && Greedy(Blocks(Append(log, a, maxsize)), maxsize)
  {
    if Overflows(log.current, a.line, maxsize) {
      GreedyNewBlock(Blocks(log), a.line, maxsize);
    } else {
      GreedyNewLine(log.closed, log.current, a.line, maxsize);
    }
  }

  /** While files can be opened, every line is accepted and no rotation comes early. */
  lemma {:induction false} RotationsAreNeeded(attempts: seq<Attempt>, maxsize: int)
    requires forall a :: a in attempts ==> a.second
    ensures Run(true, attempts, maxsize).open && Greedy(Blocks(Run(true, attempts, maxsize)), maxsize)
    ensures |Accepted(true, attempts, maxsize)| == |attempts|
    decreases |attempts|
  {
    if attempts != [] {
      var n := |attempts| - 1;
      RotationsAreNeeded(attempts[..n], maxsize);
      AppendGreedy(Run(true, attempts[..n], maxsize), attempts[n], maxsize);
    }
  }

  // ---------- archives ----------

  datatype Archived = Archived(time: nat, text: string)

  function ArchiveName(filename: string, t: nat): string {
    filename + ("-" + FormatTimestamp(t))
  }

  lemma SameNameIffSameMillisecond(filename: string, t: nat, u: nat)
    ensures ArchiveName(filename, t) == ArchiveName(filename, u) <==> Millisecond(t) == Millisecond(u)
    ensures ArchiveName(filename, t) != filename
  {
    var s, s' := FormatTimestamp(t), FormatTimestamp(u);
    assert ArchiveName(filename, t)[|filename| + 1..] == s;
    assert ArchiveName(filename, u)[|filename| + 1..] == s';
    SameTextIffSameMillisecond(t, u);
  }

  /** The last archives are the closed files, in order. */
  ghost predicate EndsWith(archives: seq<Archived>, closed: seq<seq<string>>) {
    && |closed| <= |archives|
    && (forall k :: 0 <= k < |closed| ==> archives[|archives| - |closed| + k].text == ClosedText(closed[k]))
  }

  lemma EndsWithSnoc(archives: seq<Archived>, closed: seq<seq<string>>, now: nat, lines: seq<string>)
    requires EndsWith(archives, closed)
    ensures EndsWith(archives + [Archived(now, ClosedText(lines))], closed + [lines])
  {
  }

  /** Each archive is renamed into the directory and replaces what has its name there. */
  function Renamed(dir: map<string, string>, filename: string, archives: seq<Archived>): map<string, string> {
    if archives == [] then dir
    else
      var a := archives[|archives| - 1];
      Renamed(dir, filename, archives[..|archives| - 1])[ArchiveName(filename, a.time) := a.text]
  }

  predicate Intact(dir: map<string, string>, filename: string, a: Archived) {
    ArchiveName(filename, a.time) in dir && dir[ArchiveName(filename, a.time)] == a.text
  }

  /** No millisecond sees two different texts archived. */
  ghost predicate NoClash(archives: seq<Archived>) {
    forall i, j :: 0 <= i < j < |archives| && Millisecond(archives[i].time) == Millisecond(archives[j].time)
      ==> archives[i].text == archives[j].text
  }

  lemma IntactStep(dir: map<string, string>, filename: string, a: Archived, b: Archived)
    requires Intact(dir, filename, a) && (Millisecond(a.time) == Millisecond(b.time) ==> a.text == b.text)
    ensures Intact(dir[ArchiveName(filename, b.time) := b.text], filename, a)
  {
    SameNameIffSameMillisecond(filename, a.time, b.time);
  }

  lemma {:induction false} NoClashIsIntact(dir: map<string, string>, filename: string, archives: seq<Archived>, i: nat)
    requires NoClash(archives) && i < |archives|
    ensures Intact(Renamed(dir, filename, archives), filename, archives[i])
    decreases |archives|
  {
    var n := |archives| - 1;
    if i < n {
      var earlier := archives[..n];
      assert earlier[i] == archives[i];
      NoClashIsIntact(dir, filename, earlier, i);
      IntactStep(Renamed(dir, filename, earlier), filename, archives[i], archives[n]);
    }
  }

  /** Every archived file survives exactly if the archive names keep apart what differs: the code
      never looks whether the name is free. */
  lemma ArchivesSurviveIff(dir: map<string, string>, filename: string, archives: seq<Archived>)
    ensures (forall i :: 0 <= i < |archives| ==> Intact(Renamed(dir, filename, archives), filename, archives[i]))
            <==> NoClash(archives)
  {
    if NoClash(archives) {
      forall i | 0 <= i < |archives| ensures Intact(Renamed(dir, filename, archives), filename, archives[i]) {
        NoClashIsIntact(dir, filename, archives, i);
      }
    } else {
      var i, j :| 0 <= i < j < |archives| && Millisecond(archives[i].time) == Millisecond(archives[j].time)
        && archives[i].text != archives[j].text;
      SameNameIffSameMillisecond(filename, archives[i].time, archives[j].time);
    }
  }

  lemma OneLineInside(a: string)
    ensures var text := ClosedText([a]);
            |text| == |HEADER| + |a| + |FOOTER| && text[|HEADER|..|HEADER| + |a|] == a
  {
    assert Flatten([a]) == a + "" == a;
  }

  lemma ClosedTextDiffers(a: string, b: string)
    requires a != b
    ensures ClosedText([a]) != ClosedText([b])
  {
    OneLineInside(a);
    OneLineInside(b);
  }

  /** The line goes into a file of its own when the one before leaves no room for it. */
  lemma AppendAlone(closed: seq<seq<string>>, line: string, a: Attempt, maxsize: int)
    requires a.second && |line| + |a.line| + 22 > maxsize
    ensures Append(Log(closed, [line], true), a, maxsize) == Log(closed + [[line]], [a.line], true)
  {
    SizeSnoc([], line);
    assert [] + [line] == [line];
  }

  lemma AppendFirst(a: Attempt, maxsize: int)
    requires LineFits(a.line, maxsize)
    ensures Append(Log([], [], true), a, maxsize) == Log([], [a.line], true)
  {
    SizeSnoc([], a.line);
    assert [] + [a.line] == [a.line];
  }

  /** Two archives of one millisecond: only the second is there. */
  lemma LaterReplacesEarlier(dir: map<string, string>, filename: string, a: Archived, b: Archived)
    requires Millisecond(a.time) == Millisecond(b.time) && a.text != b.text
    ensures Renamed(dir, filename, [a, b]) == dir[ArchiveName(filename, b.time) := b.text]
    ensures !Intact(Renamed(dir, filename, [a, b]), filename, a)
  {
    SameNameIffSameMillisecond(filename, a.time, b.time);
    assert [a, b][..1] == [a] && [a][..0] == [];
    assert Renamed(dir, filename, [a]) == Renamed(dir, filename, [])[ArchiveName(filename, a.time) := a.text];
  }
}
