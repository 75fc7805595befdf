/** line_splitter.cpp: cutting a chunked byte stream into lines. */
module LineSplitters {
  import opened Text

  /** What the sink has received, and the unfinished line. */
  datatype Progress = Progress(lines: seq<string>, active: string)

  function Feed(p: Progress, chunk: string): Progress {
    Progress(p.lines + Pieces(p.active + chunk, '\n'), Rest(p.active + chunk, '\n'))
  }

  function FeedAll(p: Progress, chunks: seq<string>): Progress
    decreases |chunks|
  {
    if chunks == [] then p else FeedAll(Feed(p, chunks[0]), chunks[1..])
  }

  /** What the destructor adds. */
  function Flushed(p: Progress): seq<string> {
    if p.active == "" then p.lines else p.lines + [p.active]
  }

  class LineSplitter {
    var received: seq<string>
    var activeLine: string

    constructor ()
      ensures Seen() == Progress([], "")
    {
      received, activeLine := [], "";
    }

    function Seen(): Progress
      reads this
    {
      Progress(received, activeLine)
    }

    /** The unfinished line never contains a line feed. */
    predicate Valid()
      reads this
    {
      '\n' !in activeLine
    }

    method ReadAndForward(buf: string)
      requires Valid()
      modifies this
      ensures Valid() && Seen() == Feed(old(Seen()), buf)
    {
      assert buf[0..] == buf;
      ForwardLoop(buf, Feed(Seen(), buf));
    }

    /** The loop; `goal` is what is to be seen in the end. */
    method ForwardLoop(buf: string, ghost goal: Progress)
      requires Valid() && Feed(Seen(), buf[0..]) == goal
      modifies this
      ensures Valid() && Seen() == goal
    {
      var sol := 0;
      var more := true;
      while more
        invariant sol <= |buf| && Valid()
        invariant if more then Feed(Seen(), buf[sol..]) == goal else Seen() == goal
        decreases more, |buf| - sol
      {
        sol, more := ForwardTurn(buf, sol);
      }
    }

    /** One turn of the loop: the line that ends next, or what is left of the buffer. */
    method ForwardTurn(buf: string, sol: nat) returns (next: nat, more: bool)
      requires sol <= |buf| && Valid()
      modifies this
      ensures sol <= next <= |buf| && Valid() && (more ==> sol < next)
      ensures if more then Feed(Seen(), buf[next..]) == Feed(old(Seen()), buf[sol..])
              else Seen() == Feed(old(Seen()), buf[sol..])
    {
      var lf := Find(buf, '\n', sol);
      FindFirst(buf, '\n', sol);
      if lf.None? {
        FeedNoLine(Seen(), buf[sol..]);
        activeLine := activeLine + buf[sol..];
        return sol, false;
      }
      LineFound(Seen(), buf, sol, lf.value);
      received := received + [activeLine + buf[sol..lf.value]];
      activeLine := "";
      next := lf.value + 1;
      more := next != |buf|;
      if !more {
        FeedNoLine(Seen(), buf[next..]);
        assert activeLine + buf[next..] == activeLine;
      }
    }

    method Flush()
      modifies this`received
      ensures received == Flushed(old(Seen()))
    {
      if activeLine != "" {
        received := received + [activeLine];
      }
    }
  }

  lemma FeedNoLine(p: Progress, chunk: string)
    requires '\n' !in p.active && '\n' !in chunk
    ensures Feed(p, chunk) == Progress(p.lines, p.active + chunk)
  {
    SplitNone(p.active + chunk, '\n');
  }

  lemma LineFound(p: Progress, buf: string, sol: nat, lf: nat)
    requires sol <= lf < |buf| && buf[lf] == '\n' && '\n' !in buf[sol..lf] && '\n' !in p.active
    ensures Feed(p, buf[sol..]) == Feed(Progress(p.lines + [p.active + buf[sol..lf]], ""), buf[lf + 1..])
  {
    var piece, rest := p.active + buf[sol..lf], buf[lf + 1..];
    SplitFirst(piece, rest, '\n');
    assert p.active + buf[sol..] == piece + ['\n'] + rest;
    Assoc(p.lines, [piece], Pieces(rest, '\n'));
    assert "" + rest == rest;
  }

  /** What is known after the whole text was seen. */
  function Whole(text: string): Progress {
    Progress(Pieces(text, '\n'), Rest(text, '\n'))
  }

  lemma FeedWhole(before: string, chunk: string)
    ensures Feed(Whole(before), chunk) == Whole(before + chunk)
  {
    SplitConcat(before, chunk, '\n');
  }

  /** Chunk independence: however the input was cut into calls, the sink has received exactly the
      complete lines of the whole input, and what is pending is what follows the last line feed. */
  lemma {:induction false} ChunkIndependence(chunks: seq<string>, before: string)
    ensures FeedAll(Whole(before), chunks) == Whole(before + Flatten(chunks))
    decreases |chunks|
  {
    if chunks == [] {
      assert before + "" == before;
    } else {
      FeedWhole(before, chunks[0]);
      ChunkIndependence(chunks[1..], before + chunks[0]);
      Assoc(before, chunks[0], Flatten(chunks[1..]));
    }
  }

  /** From construction to destruction: lines with their line feeds restored, followed by the
      pending text, are the input; and flushing adds the unterminated tail when there is one. */
  lemma NothingLost(chunks: seq<string>)
    ensures var p := FeedAll(Progress([], ""), chunks);
            && Join(p.lines, '\n') + p.active == Flatten(chunks)
            && FreeOf(p.lines, '\n') && '\n' !in p.active
            && Flushed(p) == Pieces(Flatten(chunks), '\n')
                             + (if Rest(Flatten(chunks), '\n') == "" then [] else [Rest(Flatten(chunks), '\n')])
  {
    SplitNone("", '\n');
    assert Whole("") == Progress([], "");
    ChunkIndependence(chunks, "");
    assert "" + Flatten(chunks) == Flatten(chunks);
    JoinSplit(Flatten(chunks), '\n');
  }
}
