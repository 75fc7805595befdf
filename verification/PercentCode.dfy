/** `decode_hex_byte` of parse_url.cpp: percent-encoding (section 2.1 of RFC 3986), and `+` for a space
    as in HTML forms. */
module PercentCode {
  import opened Wrappers
  import opened Text

  predicate IsHex(c: char) {
    '0' <= c <= '9' || 'a' <= c <= 'f' || 'A' <= c <= 'F'
  }

  function HexValue(c: char): (v: nat)
    requires IsHex(c)
    ensures v < 16
  {
    if c <= '9' then c as nat - '0' as nat
    else if c <= 'F' then c as nat - 'A' as nat + 10
    else c as nat - 'a' as nat + 10
  }

  /** A `%` at the beginning must be followed by two hexadecimal digits. */
  predicate GoodEscape(s: string) {
    |s| >= 3 && IsHex(s[1]) && IsHex(s[2])
  }

  function EscapeError(s: string): string
    requires s != ""
  {
    "Invalid escape sequence: %" + s[1..if |s| < 3 then |s| else 3]
  }

  /** `head` in front of what was decoded. */
  function After(head: string, r: Result<string>): Result<string> {
    match r
    case Ok(text) => Ok(head + text)
    case Invalid(_) => r
  }

  function Decode(s: string): Result<string>
    decreases |s|
  {
    if s == "" then Ok("")
    else if s[0] == '%' then
      if GoodEscape(s) then After([(16 * HexValue(s[1]) + HexValue(s[2])) as char], Decode(s[3..]))
      else Invalid(EscapeError(s))
    else After([if s[0] == '+' then ' ' else s[0]], Decode(s[1..]))
  }

  lemma AfterTwice(a: string, b: string, r: Result<string>)
    ensures After(a, After(b, r)) == After(a + b, r)
  {
    if r.Ok? { Assoc(a, b, r.value); }
  }

  /** One turn of the loop at `i`, where `step` characters are consumed. */
  lemma DecodeTurn(s: string, i: nat, out: string, c: char, step: nat)
    requires i < |s| && 0 < step && i + step <= |s|
    requires Decode(s[i..]) == After([c], Decode(s[i..][step..]))
    ensures After(out, Decode(s[i..])) == After(out + [c], Decode(s[i + step..]))
  {
    assert s[i..][step..] == s[i + step..];
    AfterTwice(out, [c], Decode(s[i + step..]));
  }

  method DecodeHexByte(s: string) returns (r: Result<string>)
    ensures r == Decode(s)
  {
    r := DecodeLoop(s, Decode(s));
  }

  /** The loop; `goal` is the result it is to reach. */
  method DecodeLoop(s: string, ghost goal: Result<string>) returns (r: Result<string>)
    requires goal == Decode(s)
    ensures r == goal
  {
    var out := "";
    var i: nat := 0;
    assert s[0..] == s;
    AfterEmpty(Decode(s));
    while i < |s|
      invariant i <= |s|
      invariant After(out, Decode(s[i..])) == goal
    {
      ghost var rest := s[i..];
      if s[i] == '%' {
        var escape := s[i + 1..if i + 3 <= |s| then i + 3 else |s|];
        if |escape| != 2 || !IsHex(escape[0]) || !IsHex(escape[1]) {
          assert !GoodEscape(rest) && escape == rest[1..if |rest| < 3 then |rest| else 3];
          return Invalid("Invalid escape sequence: %" + escape);
        }
        var c := (16 * HexValue(escape[0]) + HexValue(escape[1])) as char;
        DecodeTurn(s, i, out, c, 3);
        out := out + [c];
        i := i + 2;
      } else if s[i] == '+' {
        DecodeTurn(s, i, out, ' ', 1);
        out := out + [' '];
      } else {
        DecodeTurn(s, i, out, s[i], 1);
        out := out + [s[i]];
      }
      i := i + 1;
    }
    assert s[i..] == "" && out + "" == out;
    return Ok(out);
  }

  lemma AfterEmpty(r: Result<string>)
    ensures After("", r) == r
  {
    if r.Ok? { assert "" + r.value == r.value; }
  }

  // ---------- what is accepted, and what comes back ----------

  predicate GoodAt(s: string, i: nat) {
    i + 2 < |s| && IsHex(s[i + 1]) && IsHex(s[i + 2])
  }

  lemma {:induction false} AcceptedFrom(s: string, from: nat)
    requires from <= |s|
    ensures Decode(s[from..]).Ok? <==> forall i :: from <= i < |s| && s[i] == '%' ==> GoodAt(s, i)
    decreases |s| - from
  {
    if from < |s| {
      var rest := s[from..];
      if s[from] != '%' {
        AcceptedFrom(s, from + 1);
        assert rest[1..] == s[from + 1..];
      } else if GoodAt(s, from) {
        AcceptedFrom(s, from + 3);
        assert rest[3..] == s[from + 3..] && rest[1] == s[from + 1] && rest[2] == s[from + 2];
      }
    }
  }

  /** A text is accepted exactly if every `%` is followed by two hexadecimal digits. */
  lemma {:induction false} AcceptedIff(s: string)
    ensures Decode(s).Ok? <==> forall i :: 0 <= i < |s| && s[i] == '%' ==> GoodAt(s, i)
  {
    AcceptedFrom(s, 0);
    assert s[0..] == s;
  }

  /** Accepted texts are decoded piece by piece. */
  lemma {:induction false} DecodeConcat(a: string, b: string)
    requires Decode(a).Ok?
    ensures Decode(a + b) == After(Decode(a).value, Decode(b))
    decreases |a|
  {
    if a == "" {
      assert a + b == b;
      AfterEmpty(Decode(b));
    } else {
      var step := if a[0] == '%' then 3 else 1;
      var head := if a[0] == '%' then [(16 * HexValue(a[1]) + HexValue(a[2])) as char]
                  else [if a[0] == '+' then ' ' else a[0]];
      DecodeConcat(a[step..], b);
      assert (a + b)[step..] == a[step..] + b;
      AfterTwice(head, Decode(a[step..]).value, Decode(b));
    }
  }

  function HexDigit(v: nat): (c: char)
    requires v < 16
    ensures IsHex(c) && HexValue(c) == v
  {
    if v < 10 then ('0' as nat + v) as char else ('A' as nat + (v - 10)) as char
  }

  predicate Bytes(s: string) {
    forall i :: 0 <= i < |s| ==> s[i] as nat < 256
  }

  /** Every byte as an escape, as a careful client may send it. */
  function Encode(s: string): string
    requires Bytes(s)
  {
    if s == "" then ""
    else
      var v := s[0] as nat;
      ['%', HexDigit(v / 16), HexDigit(v % 16)] + Encode(s[1..])
  }

  /** The encoding of any bytes is free of all characters the URL is split at, and decodes to them. */
  lemma {:induction false} EncodeRoundTrip(s: string)
    requires Bytes(s)
    ensures Decode(Encode(s)) == Ok(s)
    ensures forall c :: c in Encode(s) ==> c == '%' || IsHex(c)
  {
    if s != "" {
      assert Bytes(s[1..]) && s[0] as nat < 256;
      EncodeRoundTrip(s[1..]);
      var escape := ['%', HexDigit(s[0] as nat / 16), HexDigit(s[0] as nat % 16)];
      assert Encode(s) == escape + Encode(s[1..]) && Encode(s)[3..] == Encode(s[1..]);
      assert s == [s[0]] + s[1..];
    }
  }

  // ---------- every way of writing a text ----------

  type Nibble = n: nat | n < 16

  /** A character as it is, a space as `+`, or an octet by its two hexadecimal digits, each in either
      case. */
  datatype Piece = Plain(c: char) | Blank | Octet(high: Nibble, low: Nibble, highUpper: bool, lowUpper: bool) {
    predicate Valid() {
      Plain? ==> c != '%' && c != '+'
    }

    function Spelling(): string {
      match this
      case Plain(c) => [c]
      case Blank => "+"
      case Octet(high, low, highUpper, lowUpper) => ['%', SpelledDigit(high, highUpper), SpelledDigit(low, lowUpper)]
    }

    function Meaning(): char {
      match this
      case Plain(c) => c
      case Blank => ' '
      case Octet(high, low, _, _) => (16 * high + low) as char
    }
  }

  function SpelledDigit(v: Nibble, upper: bool): char {
    if upper then "0123456789ABCDEF"[v] else "0123456789abcdef"[v]
  }

  function Spelled(pieces: seq<Piece>): string {
    if pieces == [] then "" else pieces[0].Spelling() + Spelled(pieces[1..])
  }

  function Meant(pieces: seq<Piece>): string {
    seq(|pieces|, i requires 0 <= i < |pieces| => pieces[i].Meaning())
  }

  predicate AllValid(pieces: seq<Piece>) {
    forall p :: p in pieces ==> p.Valid()
  }

  lemma DigitOfEitherCase(v: Nibble, upper: bool)
    ensures IsHex(SpelledDigit(v, upper)) && HexValue(SpelledDigit(v, upper)) == v
  {
  }

  lemma HexIsSpelled(c: char) returns (v: Nibble, upper: bool)
    requires IsHex(c)
    ensures SpelledDigit(v, upper) == c
  {
    v, upper := HexValue(c), c <= 'F';
  }

  lemma PieceDecodes(p: Piece, more: string)
    requires p.Valid()
    ensures Decode(p.Spelling() + more) == After([p.Meaning()], Decode(more))
  {
    var s := p.Spelling() + more;
    match p
    case Plain(c) => assert s[0] == c && s[1..] == more;
    case Blank => assert s[0] == '+' && s[1..] == more;
    case Octet(high, low, highUpper, lowUpper) =>
      DigitOfEitherCase(high, highUpper);
      DigitOfEitherCase(low, lowUpper);
      assert s[0] == '%' && s[3..] == more;
  }

  /** However a text is written, it comes back. */
  lemma {:induction false} SpelledDecodes(pieces: seq<Piece>)
    requires AllValid(pieces)
    ensures Decode(Spelled(pieces)) == Ok(Meant(pieces))
  {
    if pieces != [] {
      var p, more := pieces[0], pieces[1..];
      SpelledDecodes(more);
      PieceDecodes(p, Spelled(more));
      assert Spelled(pieces) == p.Spelling() + Spelled(more);
      assert Meant(pieces) == [p.Meaning()] + Meant(more);
    }
  }

  lemma PieceAtFront(s: string) returns (p: Piece, step: nat)
    requires s != "" && Decode(s).Ok?
    ensures p.Valid() && 0 < step <= |s| && s == p.Spelling() + s[step..]
    ensures Decode(s) == After([p.Meaning()], Decode(s[step..]))
  {
    if s[0] == '%' {
      var high, highUpper := HexIsSpelled(s[1]);
      var low, lowUpper := HexIsSpelled(s[2]);
      p, step := Octet(high, low, highUpper, lowUpper), 3;
      assert s == [s[0], s[1], s[2]] + s[3..];
      DigitOfEitherCase(high, highUpper);
      DigitOfEitherCase(low, lowUpper);
    } else {
      p, step := if s[0] == '+' then Blank else Plain(s[0]), 1;
      assert s == [s[0]] + s[1..];
    }
  }

  lemma {:induction false} AcceptedIsSpelled(s: string) returns (pieces: seq<Piece>)
    requires Decode(s).Ok?
    ensures AllValid(pieces) && Spelled(pieces) == s
    decreases |s|
  {
    if s == "" {
      pieces := [];
    } else {
      var p, step := PieceAtFront(s);
      var more := AcceptedIsSpelled(s[step..]);
      pieces := [p] + more;
      assert pieces[1..] == more;
    }
  }

  /** A text decodes to another exactly if it is one of the ways of writing it. */
  lemma DecodesIffSpelled(s: string, text: string)
    ensures Decode(s) == Ok(text)
            <==> exists pieces :: AllValid(pieces) && Spelled(pieces) == s && Meant(pieces) == text
  {
    if Decode(s) == Ok(text) {
      var pieces := AcceptedIsSpelled(s);
      SpelledDecodes(pieces);
    }
    forall pieces | AllValid(pieces) && Spelled(pieces) == s
      ensures Decode(s) == Ok(Meant(pieces))
    {
      SpelledDecodes(pieces);
    }
  }

  /** Without `%` and `+` a text is what it says. */
  lemma {:induction false} PlainIsItself(s: string)
    requires '%' !in s && '+' !in s
    ensures Decode(s) == Ok(s)
    decreases |s|
  {
    if s != "" {
      PlainIsItself(s[1..]);
      assert s == [s[0]] + s[1..];
    }
  }

  /** A `+` between accepted texts is a space. */
  lemma PlusIsSpace(a: string, b: string)
    requires Decode(a).Ok? && Decode(b).Ok?
    ensures Decode(a + ("+" + b)) == Ok(Decode(a).value + (" " + Decode(b).value))
  {
    DecodeConcat(a, "+" + b);
    DecodeConcat("+", b);
    assert "+"[1..] == "" && [' '] + "" == " ";
  }

  /** The first `%` that is not followed by two hexadecimal digits is reported, with as many of the two
      characters behind it as there are. */
  lemma FirstErrorIsReported(good: string, rest: string)
    requires Decode(good).Ok?
    requires |rest| < 2 || rest[0] !in "0123456789abcdefABCDEF" || rest[1] !in "0123456789abcdefABCDEF"
    ensures Decode(good + ("%" + rest))
            == Invalid("Invalid escape sequence: %" + rest[..if |rest| < 2 then |rest| else 2])
  {
    DecodeConcat(good, "%" + rest);
    var s := "%" + rest;
    HexDigits();
    assert s[1..if |s| < 3 then |s| else 3] == rest[..if |rest| < 2 then |rest| else 2];
  }

  lemma HexDigits()
    ensures forall c :: IsHex(c) <==> c in "0123456789abcdefABCDEF"
  {
    forall c | IsHex(c) ensures c in "0123456789abcdefABCDEF" {
      var v, upper := HexIsSpelled(c);
      var digits := "0123456789abcdefABCDEF";
      assert c == if v < 10 || !upper then digits[v] else digits[v + 6];
    }
  }

  // ---------- the shortest way ----------

  /** A character that may stand as it is, a space as `+`, and an escape for `%`, `+` and the marks. */
  function PieceFor(c: char, marks: string): (p: Piece)
    requires forall m :: m in marks ==> m as nat < 256
    ensures p.Valid()
  {
    if c == ' ' then Blank
    else if c == '%' || c == '+' || c in marks then Octet(c as nat / 16, c as nat % 16, true, true)
    else Plain(c)
  }

  /** The text with nothing but the marks escaped. */
  function Readable(text: string, marks: string): string
    requires forall m :: m in marks ==> m as nat < 256
  {
    Spelled(PiecesFor(text, marks))
  }

  function PiecesFor(text: string, marks: string): (pieces: seq<Piece>)
    requires forall m :: m in marks ==> m as nat < 256
    ensures AllValid(pieces)
  {
    seq(|text|, i requires 0 <= i < |text| => PieceFor(text[i], marks))
  }

  /** It means the text, and the marks do not stand in it. */
  lemma ReadableRoundTrip(text: string, marks: string)
    requires forall m :: m in marks ==> m as nat < 256
    requires forall m :: m in marks ==> m != '%' && m != '+' && m !in "0123456789ABCDEF"
    ensures Decode(Readable(text, marks)) == Ok(text)
    ensures forall m :: m in marks ==> m !in Readable(text, marks)
    ensures text != "" ==> Readable(text, marks) != ""
  {
    var pieces := PiecesFor(text, marks);
    assert Meant(pieces) == text;
    SpelledDecodes(pieces);
    MarksAreEscaped(pieces, marks);
  }

  lemma {:induction false} MarksAreEscaped(pieces: seq<Piece>, marks: string)
    requires forall p :: p in pieces ==> forall m :: m in marks ==> m !in p.Spelling()
    ensures forall m :: m in marks ==> m !in Spelled(pieces)
    ensures pieces != [] ==> Spelled(pieces) != ""
  {
    if pieces != [] { MarksAreEscaped(pieces[1..], marks); }
  }
}
