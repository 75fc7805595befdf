/** The parts of `std::string` the components share: searching, and splitting at a character. */
module Text {
  import opened Wrappers

  /** `s.find(c, from)` */
  function Find(s: string, c: char, from: nat): (r: Option<nat>)
    ensures r.Some? ==> from <= r.value < |s| && s[r.value] == c
    decreases |s| - from
  {
    if from >= |s| then None
    else if s[from] == c then Some(from)
    else Find(s, c, from + 1)
  }

  /** The result is the first occurrence, if there is one. */
  lemma {:induction false} FindFirst(s: string, c: char, from: nat)
    requires from <= |s|
    ensures match Find(s, c, from)
            case Some(i) => c !in s[from..i]
            case None => c !in s[from..]
    decreases |s| - from
  {
    if from < |s| && s[from] != c {
      FindFirst(s, c, from + 1);
      assert s[from..] == [s[from]] + s[from + 1..];
      match Find(s, c, from)
      case Some(i) => assert s[from..i] == [s[from]] + s[from + 1..i];
      case None =>
    }
  }

  predicate IsAt(s: string, p: string, i: nat) {
    i + |p| <= |s| && s[i..i + |p|] == p
  }

  /** `s.find(p, from)` */
  function FindText(s: string, p: string, from: nat): (r: Option<nat>)
    ensures r.Some? ==> from <= r.value && IsAt(s, p, r.value)
    decreases |s| - from
  {
    if from + |p| > |s| then None
    else if IsAt(s, p, from) then Some(from)
    else FindText(s, p, from + 1)
  }

  /** The result is the first occurrence, if there is one. */
  lemma {:induction false} FindTextFirst(s: string, p: string, from: nat, i: nat)
    requires from <= i && (match FindText(s, p, from) case None => true case Some(k) => i < k)
    ensures !IsAt(s, p, i)
    decreases |s| - from
  {
    if from + |p| <= |s| && from < i { FindTextFirst(s, p, from + 1, i); }
  }

  /** A pattern of three characters. */
  lemma IsAtThree(s: string, p: string, k: nat)
    requires |p| == 3
    ensures IsAt(s, p, k) <==> k + 3 <= |s| && s[k] == p[0] && s[k + 1] == p[1] && s[k + 2] == p[2]
  {
    if k + 3 <= |s| { assert s[k..k + 3] == [s[k], s[k + 1], s[k + 2]] && p == [p[0], p[1], p[2]]; }
  }

  lemma IsAtShift(s: string, p: string, i: nat)
    requires i <= |s|
    ensures IsAt(s[i..], p, 0) <==> IsAt(s, p, i)
  {
    if i + |p| <= |s| { assert s[i..][0..|p|] == s[i..i + |p|]; }
  }

  /** The first occurrence is where the contract says it is. */
  lemma {:induction false} FindTextIs(s: string, p: string, from: nat, at: nat)
    requires from <= at && IsAt(s, p, at)
    requires forall i :: from <= i < at ==> !IsAt(s, p, i)
    ensures FindText(s, p, from) == Some(at)
    decreases at - from
  {
    if from < at { FindTextIs(s, p, from + 1, at); }
  }

  /** Searching from a position is searching the suffix. */
  lemma {:induction false} FindTextShift(s: string, p: string, from: nat, base: nat)
    requires base <= from <= |s|
    ensures FindText(s, p, from)
            == (match FindText(s[base..], p, from - base) case None => None case Some(k) => Some(base + k))
    decreases |s| - from
  {
    if from + |p| <= |s| {
      assert s[base..][from - base..from - base + |p|] == s[from..from + |p|];
      if from < |s| { FindTextShift(s, p, from + 1, base); }
    }
  }

  lemma {:induction false} FindIs(s: string, c: char, from: nat, at: nat)
    requires from <= at < |s| && s[at] == c && c !in s[from..at]
    ensures Find(s, c, from) == Some(at)
    decreases at - from
  {
    if from < at {
      assert s[from..at] == [s[from]] + s[from + 1..at];
      FindIs(s, c, from + 1, at);
    }
  }

  /** Searching from a position is searching the suffix. */
  lemma {:induction false} FindShift(s: string, c: char, from: nat, base: nat)
    requires base <= from <= |s|
    ensures Find(s, c, from) == (match Find(s[base..], c, from - base) case None => None case Some(k) => Some(base + k))
    decreases |s| - from
  {
    if from < |s| {
      assert s[base..][from - base] == s[from];
      FindShift(s, c, from + 1, base);
    }
  }

  /** The terminator after a text free of it. */
  lemma FindAfter(text: string, rest: string, c: char)
    requires c !in text
    ensures Find(text + [c] + rest, c, 0) == Some(|text|)
    ensures (text + [c] + rest)[..|text|] == text && (text + [c] + rest)[|text| + 1..] == rest
  {
    var s := text + [c] + rest;
    assert s[0..|text|] == text;
    FindIs(s, c, 0, |text|);
  }

  lemma Assoc<T>(a: seq<T>, b: seq<T>, c: seq<T>)
    ensures (a + b) + c == a + (b + c)
  {
  }

  /** Four pieces, however they are put together. */
  lemma Regroup<T>(a: seq<T>, b: seq<T>, c: seq<T>, d: seq<T>)
    ensures (a + b) + (c + d) == (a + (b + c)) + d
    ensures a + (b + (c + d)) == ((a + b) + c) + d
    ensures a + ((b + c) + d) == ((a + b) + c) + d
  {
  }

  function Flatten(parts: seq<string>): string {
    if parts == [] then "" else parts[0] + Flatten(parts[1..])
  }

  lemma {:induction false} FlattenConcat(a: seq<string>, b: seq<string>)
    ensures Flatten(a + b) == Flatten(a) + Flatten(b)
  {
    if a == [] {
      assert a + b == b;
    } else {
      FlattenConcat(a[1..], b);
      Assoc(a[0], Flatten(a[1..]), Flatten(b));
      assert (a + b)[1..] == a[1..] + b;
    }
  }

  // ---------- splitting at a terminator ----------

  /** The pieces that are followed by the terminator. */
  function Pieces(s: string, c: char): seq<string>
    decreases |s|
  {
    match Find(s, c, 0)
    case None => []
    case Some(i) => [s[..i]] + Pieces(s[i + 1..], c)
  }

  /** What follows the last terminator. */
  function Rest(s: string, c: char): string
    decreases |s|
  {
    match Find(s, c, 0)
    case None => s
    case Some(i) => Rest(s[i + 1..], c)
  }

  /** Each piece with its terminator again. */
  function Join(pieces: seq<string>, c: char): string {
    if pieces == [] then "" else pieces[0] + [c] + Join(pieces[1..], c)
  }

  ghost predicate FreeOf(pieces: seq<string>, c: char) {
    forall i :: 0 <= i < |pieces| ==> c !in pieces[i]
  }

  /** A piece with its terminator is split off. */
  lemma SplitFirst(piece: string, rest: string, c: char)
    requires c !in piece
    ensures Pieces(piece + [c] + rest, c) == [piece] + Pieces(rest, c)
    ensures Rest(piece + [c] + rest, c) == Rest(rest, c)
  {
    var s := piece + [c] + rest;
    assert s[0..|piece|] == piece;
    FindIs(s, c, 0, |piece|);
    assert s[|piece| + 1..] == rest;
  }

  lemma SplitNone(s: string, c: char)
    requires c !in s
    ensures Pieces(s, c) == [] && Rest(s, c) == s
  {
    FindFirst(s, c, 0);
  }

  lemma CutAround(s: string, i: nat)
    requires i < |s|
    ensures s == (s[..i] + [s[i]]) + s[i + 1..] && s[0..i] == s[..i]
  {
  }

  /** Splitting loses nothing, and the pieces are free of the terminator. */
  lemma {:induction false} JoinSplit(s: string, c: char)
    ensures Join(Pieces(s, c), c) + Rest(s, c) == s
    ensures FreeOf(Pieces(s, c), c) && c !in Rest(s, c)
    decreases |s|
  {
    FindFirst(s, c, 0);
    match Find(s, c, 0)
    case None => assert s[0..] == s;
    case Some(i) =>
      var more := s[i + 1..];
      JoinSplit(more, c);
      CutAround(s, i);
      Assoc(s[..i] + [c], Join(Pieces(more, c), c), Rest(more, c));
  }

  lemma {:induction false} SplitAppend(pieces: seq<string>, s: string, c: char)
    requires FreeOf(pieces, c)
    ensures Pieces(Join(pieces, c) + s, c) == pieces + Pieces(s, c)
    ensures Rest(Join(pieces, c) + s, c) == Rest(s, c)
  {
    if pieces == [] {
      assert Join(pieces, c) + s == s;
    } else {
      var first, more := pieces[0], pieces[1..];
      SplitAppend(more, s, c);
      Assoc(first + [c], Join(more, c), s);
      SplitFirst(first, Join(more, c) + s, c);
      Assoc([first], more, Pieces(s, c));
      assert pieces == [first] + more;
    }
  }

  /** There is only one way to cut a string into pieces free of the terminator. */
  lemma SplitUnique(pieces: seq<string>, rest: string, c: char)
    requires FreeOf(pieces, c) && c !in rest
    ensures Pieces(Join(pieces, c) + rest, c) == pieces && Rest(Join(pieces, c) + rest, c) == rest
  {
    SplitAppend(pieces, rest, c);
    SplitNone(rest, c);
  }

  /** Splitting can be suspended after any prefix: only its rest matters for what follows. */
  lemma SplitConcat(a: string, b: string, c: char)
    ensures Pieces(a + b, c) == Pieces(a, c) + Pieces(Rest(a, c) + b, c)
    ensures Rest(a + b, c) == Rest(Rest(a, c) + b, c)
  {
    JoinSplit(a, c);
    SplitAppend(Pieces(a, c), Rest(a, c) + b, c);
    assert Join(Pieces(a, c), c) + (Rest(a, c) + b) == a + b;
  }
}
