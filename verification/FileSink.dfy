/** The rotating file sink of output_stream_file.cpp. */
module FileSinks {
  import opened Text
  import opened Timestamp
  import opened LogEvents
  import opened Rotation
  import opened FileLines
  import opened Tags
  import CData

  class FileSink {
    const filename: string
    const maxsize: int
    /** The directory: file names with contents. What is streamed goes to the file at once. */
    var files: map<string, string>
    var isOpen: bool
    /** The directory as found, without a file of the sink's own name. */
    ghost const found: map<string, string>
    ghost var archives: seq<Archived>
    ghost var log: Log

    /** Everything but the current file is as found, or an archive. */
    ghost predicate Directory()
      reads this
    {
      filename !in found && files - {filename} == Renamed(found, filename, archives)
    }

    ghost predicate Valid()
      reads this
    {
      && Directory() && EndsWith(archives, log.closed)
      && isOpen == log.open
      && (isOpen ==> filename in files && files[filename] == OpenText(log.current))
      && (!isOpen ==> filename !in files && log.current == [])
    }

    /** An old file with the sink's name is archived under its modification time. */
    constructor (filename: string, maxsize: int, files: map<string, string>, modified: nat, opens: bool)
      ensures Valid() && this.filename == filename && this.maxsize == maxsize
      ensures found == files - {filename} && log == Log([], [], opens)
      ensures archives == if filename in files then [Archived(modified, files[filename])] else []
    {
      this.filename, this.maxsize := filename, maxsize;
      this.files, this.found := files, files - {filename};
      this.archives, this.log := [], Log([], [], opens);
      this.isOpen := false;
      new;
      var ok := Open(modified, true, opens);
      NoLines();
    }

    /** `rename` replaces a file that has the archive's name; it may also fail. */
    method Archive(t: nat, renames: bool) returns (ok: bool)
      requires Directory()
      modifies this`files, this`archives
      ensures Directory() && ok == (renames && filename in old(files))
      ensures ok ==> filename !in files && archives == old(archives) + [Archived(t, old(files)[filename])]
      ensures !ok ==> files == old(files) && archives == old(archives)
    {
      if filename !in files || !renames { return false; }
      SameNameIffSameMillisecond(filename, t, t);
      archives := archives + [Archived(t, files[filename])];
      assert archives[..|archives| - 1] == old(archives);
      files := (files - {filename})[ArchiveName(filename, t) := files[filename]];
      return true;
    }

    /** `renames`: whether an old file can be renamed; if not, nothing changes and `isOpen` keeps its
        value.  `opens`: whether the file can be created. */
    method Open(modified: nat, renames: bool, opens: bool) returns (ok: bool)
      requires Directory()
      modifies this`files, this`archives, this`isOpen
      ensures Directory()
      ensures filename in old(files) && !renames ==>
                !ok && files == old(files) && archives == old(archives) && isOpen == old(isOpen)
      ensures filename !in old(files) || renames ==>
                && ok == isOpen == opens && (filename in files <==> opens) && (opens ==> files[filename] == HEADER)
                && archives == (if filename in old(files) then
                                  old(archives) + [Archived(modified, old(files)[filename])]
                                else old(archives))
    {
      if filename in files {
        var archived := Archive(modified, renames);
        if !archived { return false; }
      }
      if opens { files := files[filename := ""]; }
      Put(HEADER);
      isOpen := opens;
      return isOpen;
    }

    /** Streaming to a file that is not open does nothing. */
    method Put(text: string)
      requires Directory()
      modifies this`files
      ensures Directory()
      ensures files == if filename in old(files) then old(files)[filename := old(files)[filename] + text] else old(files)
    {
      if filename in files { files := files[filename := files[filename] + text]; }
    }

    /** Also what the destructor does. Every accepted line is in a closed file then. */
    method Close(now: nat) returns (ok: bool)
      requires Valid()
      modifies this`files, this`archives, this`log
      ensures Directory() && EndsWith(archives, log.closed) && filename !in files && ok == old(isOpen)
      ensures ok ==> log == Log(old(log.closed) + [old(log.current)], [], false)
      ensures ok ==> archives == old(archives) + [Archived(now, ClosedText(old(log.current)))]
      ensures !ok ==> log == old(log) && archives == old(archives)
    {
      EndsWithSnoc(archives, log.closed, now, log.current);
      Put(FOOTER);
      ok := Archive(now, true);
      if ok { log := Log(log.closed + [log.current], [], false); }
    }

    method Rotate(now: nat, opens: bool) returns (ok: bool)
      requires Valid() && isOpen
      modifies this`files, this`archives, this`log, this`isOpen
      ensures Valid() && ok == opens
      ensures log == Log(old(log.closed) + [old(log.current)], [], opens)
      ensures archives == old(archives) + [Archived(now, ClosedText(old(log.current)))]
    {
      var closed := Close(now);
      ok := Open(now, true, opens);
      log := log.(open := opens);
      NoLines();
    }

    /** A line goes to the end of the open file, or nowhere. */
    method AddLine(line: string)
      requires Valid()
      modifies this`files, this`log
      ensures Valid()
      ensures log == if isOpen then old(log).(current := old(log.current) + [line]) else old(log)
    {
      OpenTextSnoc(log.current, line);
      Put(line);
      if isOpen { log := log.(current := log.current + [line]); }
    }

    /** The first part of `do_write`: a file that could not be opened earlier is tried again. */
    method EnsureOpen(now: nat, first: bool) returns (ok: bool)
      requires Valid()
      modifies this`files, this`archives, this`log, this`isOpen
      ensures Valid() && ok == isOpen == (old(isOpen) || first)
      ensures log == old(log).(open := isOpen) && archives == old(archives)
    {
      if !isOpen {
        var success := Open(now, true, first);
        log := log.(open := success);
        NoLines();
      }
      return isOpen;
    }

    /** The part of `do_write` behind the opening of the file. */
    method WriteLine(line: string, now: nat, second: bool) returns (ok: bool)
      requires Valid() && isOpen
      modifies this`files, this`archives, this`log, this`isOpen
      ensures Valid() && ok == isOpen
      ensures log == Append(old(log), Attempt(line, false, second), maxsize)
      ensures |log.closed| == |old(log.closed)| ==> archives == old(archives)
      ensures |log.closed| != |old(log.closed)| ==>
                archives == old(archives) + [Archived(now, ClosedText(old(log.current)))]
    {
      Sizes(log.current);
      var newSize := |files[filename]|;
      newSize := newSize + |line| + 12;
      if newSize > maxsize {
        var rotated := Rotate(now, second);
        assert [] + [line] == [line];
      }
      AddLine(line);
      return isOpen;
    }

    /** `first` and `second`: whether files can be created, see `Attempt`. */
    method DoWrite(e: LogEvent, now: nat, first: bool, second: bool) returns (ok: bool)
      requires Valid()
      modifies this`files, this`archives, this`log, this`isOpen
      ensures Valid() && ok == isOpen
      ensures var full := |OpenText(old(log.current))| + |Line(e)| + 12 > maxsize;
              && (ok <==> (old(isOpen) || first) && (full ==> second))
              && (ok ==> files[filename] == (if full then "<logfile>\n" else OpenText(old(log.current))) + Line(e))
      ensures log == Append(old(log), Attempt(Line(e), first, second), maxsize)
      ensures |log.closed| == |old(log.closed)| ==> archives == old(archives)
      ensures |log.closed| != |old(log.closed)| ==>
                archives == old(archives) + [Archived(now, ClosedText(old(log.current)))]
    {
      RotatesIff(log, Attempt(Line(e), first, second), maxsize);
      OpenTextSnoc(log.current, Line(e));
      OpenTextSnoc([], Line(e));
      NoLines();
      ok := EnsureOpen(now, first);
      if !ok { return; }
      var line := Line(e);
      ok := WriteLine(line, now, second);
    }

    /** A line that does not fit behind the one in the file. */
    method WriteAlone(e: LogEvent, now: nat, before: string) returns (ok: bool)
      requires Valid() && isOpen && log.current == [before] && |before| + |Line(e)| + 22 > maxsize
      modifies this`files, this`archives, this`log, this`isOpen
      ensures Valid() && ok && isOpen
      ensures log == Log(old(log.closed) + [[before]], [Line(e)], true)
      ensures archives == old(archives) + [Archived(now, ClosedText([before]))]
    {
      AppendAlone(log.closed, before, Attempt(Line(e), true, true), maxsize);
      ok := DoWrite(e, now, true, true);
    }
  }

  lemma NoLines()
    ensures OpenText([]) == HEADER
  {
    assert Flatten([]) == "";
  }

  /** What the directory holds after any history: the archives survive exactly if no millisecond saw
      two different ones, and then the closed files can be read in it. */
  lemma ClosedFilesReadable(sink: FileSink, k: nat)
    requires sink.Valid() && NoClash(sink.archives) && k < |sink.log.closed|
    ensures var i := |sink.archives| - |sink.log.closed| + k;
            var name := sink.filename + ("-" + FormatTimestamp(sink.archives[i].time));
            && name in sink.files
            && sink.files[name] == "<logfile>\n" + Flatten(sink.log.closed[k]) + "</logfile>\n"
  {
    var i := |sink.archives| - |sink.log.closed| + k;
    NoClashIsIntact(sink.found, sink.filename, sink.archives, i);
    assert ArchiveName(sink.filename, sink.archives[i].time) in sink.files - {sink.filename};
  }

  lemma SameStart(start: string, a: string, b: string)
    requires a != b
    ensures start + a != start + b
  {
    assert (start + a)[|start|..] == a && (start + b)[|start|..] == b;
  }

  /** A line ends differently from a closed file. */
  lemma LineEnds(e: LogEvent, text: string)
    ensures Line(e) != text + FOOTER
  {
    var front := START + Laid(Attributes(e), TAGS) + CData.CData(e.message);
    assert Line(e) == front + END;
    assert |END| == 18 && END[14] == 'g' && |FOOTER| == 11 && FOOTER[7] == 'l';
    var n := |Line(e)|;
    assert Line(e)[n - 4] == END[14];
    var s := text + FOOTER;
    assert s[|s| - 4] == FOOTER[7];
  }

  lemma FirstIsGone(files: map<string, string>, filename: string, now: nat, e1: LogEvent, e2: LogEvent, e3: LogEvent)
    requires files == map[ArchiveName(filename, now) := ClosedText([Line(e2)]), filename := OpenText([Line(e3)])]
    requires Line(e1) != Line(e2)
    ensures files == map[filename + ("-" + FormatTimestamp(now)) := "<logfile>\n" + Line(e2) + "</logfile>\n",
                         filename := "<logfile>\n" + Line(e3)]
    ensures forall name :: name in files ==> files[name] != "<logfile>\n" + Line(e1) + "</logfile>\n"
  {
    OneLine(Line(e1));
    OneLine(Line(e2));
    OneLine(Line(e3));
    ClosedTextDiffers(Line(e1), Line(e2));
    LineEnds(e3, Line(e1));
    Assoc(HEADER, Line(e1), FOOTER);
    SameStart(HEADER, Line(e3), Line(e1) + FOOTER);
  }

  lemma OneLine(line: string)
    ensures OpenText([line]) == HEADER + line && ClosedText([line]) == HEADER + line + FOOTER
  {
    assert Flatten([line]) == line + "" == line;
  }

  /** Short lines do not prevent a loss: any three events whose lines keep the limit, but not in pairs,
      written within one millisecond leave the first one in no file, although all three were accepted. */
  method ThreeWrites(filename: string, maxsize: int, now: nat, e1: LogEvent, e2: LogEvent, e3: LogEvent)
    returns (accepted: bool, files: map<string, string>)
    requires |Line(e1)| + 22 <= maxsize && |Line(e2)| + 22 <= maxsize && |Line(e3)| + 22 <= maxsize
    requires |Line(e1)| + |Line(e2)| + 22 > maxsize && |Line(e2)| + |Line(e3)| + 22 > maxsize
    requires Line(e1) != Line(e2)
    ensures accepted
    ensures files == map[filename + ("-" + FormatTimestamp(now)) := "<logfile>\n" + Line(e2) + "</logfile>\n",
                         filename := "<logfile>\n" + Line(e3)]
    ensures forall name :: name in files ==> files[name] != "<logfile>\n" + Line(e1) + "</logfile>\n"
  {
    var sink := new FileSink(filename, maxsize, map[], now, true);
    var ok1 := sink.DoWrite(e1, now, true, true);
    AppendFirst(Attempt(Line(e1), true, true), maxsize);
    assert sink.log == Log([], [Line(e1)], true) && sink.archives == [];
    var ok2 := sink.WriteAlone(e2, now, Line(e1));
    var ok3 := sink.WriteAlone(e3, now, Line(e2));
    assert sink.archives == [Archived(now, ClosedText([Line(e1)])), Archived(now, ClosedText([Line(e2)]))];
    accepted, files := ok1 && ok2 && ok3, sink.files;
    ClosedTextDiffers(Line(e1), Line(e2));
    LaterReplacesEarlier(sink.found, filename, sink.archives[0], sink.archives[1]);
    SameNameIffSameMillisecond(filename, now, now);
    assert files == (files - {filename})[filename := files[filename]];
    FirstIsGone(files, filename, now, e1, e2, e3);
  }
}
