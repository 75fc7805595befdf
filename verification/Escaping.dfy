/** `replace_all` and `sanitize_string` of output_stream_stomp.cpp. */
module Escaping {
  import opened Text

  // ---------- replace_all ----------

  /** Leftmost, non-overlapping replacement. */
  function Substitute(s: string, pattern: string, text: string): string
    requires pattern != ""
    decreases |s|
  {
    if |s| < |pattern| then s
    else if IsAt(s, pattern, 0) then text + Substitute(s[|pattern|..], pattern, text)
    else [s[0]] + Substitute(s[1..], pattern, text)
  }

  /** Up to the first occurrence at `i` nothing changes. */
  lemma {:induction false} SubstituteSkips(s: string, pattern: string, text: string, from: nat, i: nat)
    requires pattern != "" && from <= i <= |s|
    requires forall k :: from <= k < i ==> !IsAt(s, pattern, k)
    ensures Substitute(s[from..], pattern, text) == s[from..i] + Substitute(s[i..], pattern, text)
    decreases i - from
  {
    if from < i {
      SubstituteSkips(s, pattern, text, from + 1, i);
      assert s[from..][1..] == s[from + 1..];
      assert s[from..i] == [s[from]] + s[from + 1..i];
      Assoc([s[from]], s[from + 1..i], Substitute(s[i..], pattern, text));
      IsAtShift(s, pattern, from);
      if |s| - from < |pattern| {
        assert s[from..] == s[from..i] + s[i..];
      }
    } else {
      assert s[from..i] == "";
    }
  }

  /** The loop edits the string in place and never looks at replaced text again. */
  method ReplaceAll(str: string, pattern: string, text: string) returns (cur: string)
    requires pattern != ""
    ensures cur == Substitute(str, pattern, text)
  {
    cur := str;
    var pos: nat := 0;
    assert str[0..] == str && str[..0] + Substitute(str, pattern, text) == Substitute(str, pattern, text);
    while true
      invariant pos <= |cur|
      invariant cur[..pos] + Substitute(cur[pos..], pattern, text) == Substitute(str, pattern, text)
      decreases |cur| - pos
    {
      var found := FindText(cur, pattern, pos);
      forall k | pos <= k && (found.Some? ==> k < found.value) ensures !IsAt(cur, pattern, k) {
        FindTextFirst(cur, pattern, pos, k);
      }
      if found.None? {
        ReplaceNone(cur, pattern, text, pos);
        break;
      }
      var i := found.value;
      ReplaceOnce(cur, pattern, text, pos, i);
      cur := cur[..i] + text + cur[i + |pattern|..];
      pos := i + |text|;
    }
  }

  /** A whole suffix, when its first occurrence is at `i`. */
  lemma SubstituteFrom(s: string, pattern: string, text: string, pos: nat, i: nat)
    requires pattern != "" && pos <= i && IsAt(s, pattern, i)
    requires forall k :: pos <= k < i ==> !IsAt(s, pattern, k)
    ensures Substitute(s[pos..], pattern, text) == s[pos..i] + (text + Substitute(s[i + |pattern|..], pattern, text))
  {
    SubstituteSkips(s, pattern, text, pos, i);
    SubstituteHead(s[i..], pattern, text) by { IsAtShift(s, pattern, i); }
    assert s[i..][|pattern|..] == s[i + |pattern|..];
  }

  lemma SliceRegroup(s: string, pos: nat, i: nat, text: string, tail: string)
    requires pos <= i <= |s|
    ensures s[..pos] + (s[pos..i] + (text + tail)) == (s[..i] + text) + tail
  {
    assert s[..i] == s[..pos] + s[pos..i];
    Regroup(s[..pos], s[pos..i], text, tail);
  }

  /** One replacement at the first occurrence, seen from the text that is already final. */
  lemma ReplaceOnce(s: string, pattern: string, text: string, pos: nat, i: nat)
    requires pattern != "" && pos <= i && IsAt(s, pattern, i)
    requires forall k :: pos <= k < i ==> !IsAt(s, pattern, k)
    ensures var s' := s[..i] + text + s[i + |pattern|..];
            s[..pos] + Substitute(s[pos..], pattern, text)
            == s'[..i + |text|] + Substitute(s'[i + |text|..], pattern, text)
  {
    SubstituteFrom(s, pattern, text, pos, i);
    SliceRegroup(s, pos, i, text, Substitute(s[i + |pattern|..], pattern, text));
    Halves(s[..i] + text, s[i + |pattern|..], i + |text|);
  }

  lemma Halves(a: string, b: string, k: nat)
    requires k == |a|
    ensures (a + b)[..k] == a && (a + b)[k..] == b
  {
  }

  lemma ReplaceNone(s: string, pattern: string, text: string, pos: nat)
    requires pattern != "" && pos <= |s| && forall k :: pos <= k ==> !IsAt(s, pattern, k)
    ensures s[..pos] + Substitute(s[pos..], pattern, text) == s
  {
    SubstituteSkips(s, pattern, text, pos, |s|);
    assert s[pos..|s|] == s[pos..] && s[|s|..] == "";
    assert s[..pos] + s[pos..] == s;
  }

  lemma SubstituteHead(s: string, pattern: string, text: string)
    requires pattern != "" && IsAt(s, pattern, 0)
    ensures Substitute(s, pattern, text) == text + Substitute(s[|pattern|..], pattern, text)
  {
  }

  lemma NothingReplaced(s: string, pattern: string, text: string)
    requires pattern != "" && forall k :: 0 <= k ==> !IsAt(s, pattern, k)
    ensures Substitute(s, pattern, text) == s
  {
    ReplaceNone(s, pattern, text, 0);
    assert s[..0] == "" && s[0..] == s;
  }

  lemma FirstReplaced(s: string, pattern: string, text: string, i: nat)
    requires pattern != "" && IsAt(s, pattern, i) && forall k :: 0 <= k < i ==> !IsAt(s, pattern, k)
    ensures Substitute(s, pattern, text) == s[..i] + (text + Substitute(s[i + |pattern|..], pattern, text))
  {
    SubstituteFrom(s, pattern, text, 0, i);
    assert s[0..] == s && s[0..i] == s[..i];
  }

  /** Text without the pattern stays; otherwise its first occurrence is replaced, and what follows is
      treated in the same way. */
  lemma FirstIsReplaced(s: string, pattern: string, text: string)
    requires pattern != ""
    ensures match FindText(s, pattern, 0)
            case None => Substitute(s, pattern, text) == s
            case Some(i) =>
              Substitute(s, pattern, text) == s[..i] + (text + Substitute(s[i + |pattern|..], pattern, text))
  {
    match FindText(s, pattern, 0)
    case None =>
      forall k | 0 <= k ensures !IsAt(s, pattern, k) { FindTextFirst(s, pattern, 0, k); }
      NothingReplaced(s, pattern, text);
    case Some(i) =>
      forall k | 0 <= k < i ensures !IsAt(s, pattern, k) { FindTextFirst(s, pattern, 0, k); }
      FirstReplaced(s, pattern, text, i);
  }

  // ---------- replacing single characters ----------

  datatype Rule = Rule(c: char, text: string)

  /** One pass of `replace_all` per rule, one after the other. */
  function Chain(s: string, rules: seq<Rule>): string
    decreases |rules|
  {
    if rules == [] then s else Chain(Substitute(s, [rules[0].c], rules[0].text), rules[1..])
  }

  /** What a character becomes when all rules look at it at once. */
  function Image(c: char, rules: seq<Rule>): string {
    if rules == [] then [c] else if rules[0].c == c then rules[0].text else Image(c, rules[1..])
  }

  /** All rules applied to every character of the input at once. */
  function Simultaneous(s: string, rules: seq<Rule>): string {
    if s == "" then "" else Image(s[0], rules) + Simultaneous(s[1..], rules)
  }

  lemma {:induction false} SimultaneousConcat(a: string, b: string, rules: seq<Rule>)
    ensures Simultaneous(a + b, rules) == Simultaneous(a, rules) + Simultaneous(b, rules)
  {
    if a == "" {
      assert a + b == b;
    } else {
      SimultaneousConcat(a[1..], b, rules);
      Assoc(Image(a[0], rules), Simultaneous(a[1..], rules), Simultaneous(b, rules));
      assert (a + b)[1..] == a[1..] + b;
    }
  }

  lemma {:induction false} ImageUntouched(c: char, rules: seq<Rule>)
    requires forall j :: 0 <= j < |rules| ==> rules[j].c != c
    ensures Image(c, rules) == [c]
  {
    if rules != [] { ImageUntouched(c, rules[1..]); }
  }

  lemma {:induction false} Untouched(s: string, rules: seq<Rule>)
    requires forall j :: 0 <= j < |rules| ==> rules[j].c !in s
    ensures Simultaneous(s, rules) == s
  {
    if s != "" {
      ImageUntouched(s[0], rules);
      Untouched(s[1..], rules);
      assert s == [s[0]] + s[1..];
    }
  }

  lemma {:induction false} SubstituteIsSimultaneous(s: string, rule: Rule)
    ensures Substitute(s, [rule.c], rule.text) == Simultaneous(s, [rule])
  {
    if s != "" {
      SubstituteIsSimultaneous(s[1..], rule);
      assert s[0..1] == [s[0]] && [rule][1..] == [];
      assert Image(s[0], [rule][1..]) == [s[0]];
    }
  }

  /** No rule rewrites what an earlier rule produced. */
  ghost predicate Layered(rules: seq<Rule>) {
    forall i, j :: 0 <= i < j < |rules| ==> rules[j].c !in rules[i].text
  }

  lemma {:induction false} FirstPass(s: string, rules: seq<Rule>)
    requires rules != [] && Layered(rules)
    ensures Simultaneous(Simultaneous(s, [rules[0]]), rules[1..]) == Simultaneous(s, rules)
    decreases |s|
  {
    if s != "" {
      FirstPass(s[1..], rules);
      var head := Image(s[0], [rules[0]]);
      SimultaneousConcat(head, Simultaneous(s[1..], [rules[0]]), rules[1..]);
      if s[0] == rules[0].c {
        Untouched(rules[0].text, rules[1..]);
      } else {
        ImageUntouched(s[0], [rules[0]]);
        assert Simultaneous(head, rules[1..]) == Image(s[0], rules[1..]) + "";
      }
    }
  }

  /** Layered rules may be applied one after the other as if all at once. */
  lemma {:induction false} ChainIsSimultaneous(s: string, rules: seq<Rule>)
    requires Layered(rules)
    ensures Chain(s, rules) == Simultaneous(s, rules)
    decreases |rules|
  {
    if rules == [] {
      Untouched(s, rules);
    } else {
      SubstituteIsSimultaneous(s, rules[0]);
      ChainIsSimultaneous(Simultaneous(s, [rules[0]]), rules[1..]);
      FirstPass(s, rules);
    }
  }

  // ---------- sanitize_string ----------

  const AMPERSAND := Rule('&', "&amp;")
  const NUL := Rule('\0', "\\0")

  /** The contents of the map, whose iteration order is that of the addresses of its keys. */
  const TABLE: seq<Rule> := [Rule('"', "&quot;"), Rule('\'', "&apos;"), Rule('<', "&lt;"), Rule('>', "&gt;")]

  function EscapeChar(c: char): string {
    match c
    case '&' => "&amp;"
    case '"' => "&quot;"
    case '\'' => "&apos;"
    case '<' => "&lt;"
    case '>' => "&gt;"
    case '\0' => "\\0"
    case _ => [c]
  }

  function Escape(s: string): string {
    if s == "" then "" else EscapeChar(s[0]) + Escape(s[1..])
  }

  lemma TableRules(order: seq<Rule>, r: Rule)
    requires multiset(order) == multiset(TABLE)
    ensures r in order <==> r == TABLE[0] || r == TABLE[1] || r == TABLE[2] || r == TABLE[3]
  {
    assert r in order <==> r in multiset(order);
    assert r in TABLE <==> r in multiset(TABLE);
  }

  lemma {:induction false} ImageOf(rules: seq<Rule>, rule: Rule)
    requires rule in rules && forall r :: r in rules && r.c == rule.c ==> r == rule
    ensures Image(rule.c, rules) == rule.text
  {
    if rules[0] != rule { ImageOf(rules[1..], rule); }
  }

  /** The rules in the order the passes run. */
  function Passes(order: seq<Rule>): seq<Rule> {
    [AMPERSAND] + order + [NUL]
  }

  lemma PassesRules(order: seq<Rule>)
    requires multiset(order) == multiset(TABLE)
    ensures forall r :: r in Passes(order) <==> r == AMPERSAND || r == NUL || r in TABLE
  {
    forall r ensures r in Passes(order) <==> r == AMPERSAND || r == NUL || r in TABLE {
      TableRules(order, r);
    }
  }

  /** Whatever the order of the table, a character becomes the same text. */
  lemma OrderDoesNotMatter(order: seq<Rule>, c: char)
    requires multiset(order) == multiset(TABLE)
    ensures Image(c, Passes(order)) == EscapeChar(c)
  {
    PassesRules(order);
    var all := [AMPERSAND, NUL] + TABLE;
    if i :| 0 <= i < |all| && all[i].c == c {
      assert all[i] in Passes(order);
      ImageOf(Passes(order), all[i]);
    } else {
      assert all[0].c != c && all[1].c != c && all[2].c != c && all[3].c != c && all[4].c != c && all[5].c != c;
      forall j | 0 <= j < |Passes(order)| ensures Passes(order)[j].c != c {
        assert Passes(order)[j] in Passes(order);
      }
      ImageUntouched(c, Passes(order));
    }
  }

  lemma PassesLayered(order: seq<Rule>)
    requires multiset(order) == multiset(TABLE)
    ensures Layered(Passes(order))
  {
    PassesRules(order);
    forall i, j | 0 <= i < j < |Passes(order)| ensures Passes(order)[j].c !in Passes(order)[i].text {
      assert Passes(order)[i] in Passes(order);
      assert Passes(order)[j] in order + [NUL];
      assert Passes(order)[j] == NUL || Passes(order)[j] in order;
      TableRules(order, Passes(order)[j]);
    }
  }

  lemma {:induction false} SimultaneousIsEscape(s: string, order: seq<Rule>)
    requires multiset(order) == multiset(TABLE)
    ensures Simultaneous(s, Passes(order)) == Escape(s)
  {
    if s != "" {
      OrderDoesNotMatter(order, s[0]);
      SimultaneousIsEscape(s[1..], order);
    }
  }

  lemma EscapeConcat(a: string, b: string)
    ensures Escape(a + b) == Escape(a) + Escape(b)
  {
    SimultaneousIsEscape(a, TABLE);
    SimultaneousIsEscape(b, TABLE);
    SimultaneousIsEscape(a + b, TABLE);
    SimultaneousConcat(a, b, Passes(TABLE));
  }

  lemma EscapeOne(c: char)
    ensures Escape([c]) == EscapeChar(c)
  {
    assert [c][1..] == "";
  }

  /** What stands for each character: the predefined entities, a backslash and '0' for NUL, and every
      other character for itself. */
  lemma EscapedTexts(before: string, c: char, after: string)
    ensures Escape(before + [c] + after)
            == Escape(before)
               + (if c == '&' then "&amp;" else if c == '"' then "&quot;" else if c == '\'' then "&apos;"
                  else if c == '<' then "&lt;" else if c == '>' then "&gt;" else if c == '\0' then "\\0" else [c])
               + Escape(after)
  {
    EscapeConcat(before + [c], after);
    EscapeConcat(before, [c]);
    EscapeOne(c);
  }

  /** Escaping is order-independent: the passes, run one after the other with the table in any
      order, escape every character of the input exactly once. */
  lemma ChainIsEscape(s: string, order: seq<Rule>)
    requires multiset(order) == multiset(TABLE)
    ensures Chain(s, Passes(order)) == Escape(s)
  {
    PassesLayered(order);
    ChainIsSimultaneous(s, Passes(order));
    SimultaneousIsEscape(s, order);
  }

  lemma {:induction false} ChainConcat(s: string, a: seq<Rule>, b: seq<Rule>)
    ensures Chain(s, a + b) == Chain(Chain(s, a), b)
    decreases |a|
  {
    if a == [] {
      assert a + b == b;
    } else {
      ChainConcat(Substitute(s, [a[0].c], a[0].text), a[1..], b);
      assert (a + b)[1..] == a[1..] + b;
    }
  }

  /** `order` is the order in which the map happens to iterate. */
  method SanitizeString(str: string, order: seq<Rule>) returns (cur: string)
    requires multiset(order) == multiset(TABLE)
    ensures cur == Escape(str)
  {
    cur := ReplaceAll(str, "&", "&amp;");
    assert Chain(str, [AMPERSAND]) == cur;
    for i := 0 to |order|
      invariant cur == Chain(str, [AMPERSAND] + order[..i])
    {
      ghost var done := [AMPERSAND] + order[..i];
      ChainConcat(str, done, [order[i]]);
      assert done + [order[i]] == [AMPERSAND] + order[..i + 1];
      cur := ReplaceAll(cur, [order[i].c], order[i].text);
    }
    ChainConcat(str, [AMPERSAND] + order, [NUL]);
    assert order[..|order|] == order;
    cur := ReplaceAll(cur, "\0", "\\0");
    ChainIsEscape(str, order);
  }

  // ---------- what a reader gets back ----------

  /** A decoder of the entities predefined by section 4.6 of XML 1.0; it knows nothing of
      `sanitize_string`. */
  function Unescape(s: string): string
    decreases |s|
  {
    if s == "" then ""
    else if "&amp;" <= s then "&" + Unescape(s[5..])
    else if "&quot;" <= s then "\"" + Unescape(s[6..])
    else if "&apos;" <= s then "'" + Unescape(s[6..])
    else if "&lt;" <= s then "<" + Unescape(s[4..])
    else if "&gt;" <= s then ">" + Unescape(s[4..])
    else [s[0]] + Unescape(s[1..])
  }

  /** NUL has no representation in XML; it is spelled out as two characters. */
  function SpellNul(s: string): string {
    if s == "" then "" else (if s[0] == '\0' then "\\0" else [s[0]]) + SpellNul(s[1..])
  }

  lemma UnescapePlain(c: char, rest: string)
    requires c != '&'
    ensures Unescape([c] + rest) == [c] + Unescape(rest)
  {
    var s := [c] + rest;
    assert s[0] == c && s[1..] == rest;
  }

  lemma UnescapeAmpersand(rest: string)
    ensures Unescape("&amp;" + rest) == "&" + Unescape(rest)
  {
    var s := "&amp;" + rest;
    assert "&amp;" <= s && s[5..] == rest;
  }

  lemma UnescapeQuote(rest: string)
    ensures Unescape("&quot;" + rest) == "\"" + Unescape(rest)
  {
    var s := "&quot;" + rest;
    assert s[1] == 'q' && s[6..] == rest;
    assert "&quot;" <= s && !("&amp;" <= s);
  }

  lemma UnescapeApostrophe(rest: string)
    ensures Unescape("&apos;" + rest) == "'" + Unescape(rest)
  {
    var s := "&apos;" + rest;
    assert s[1] == 'a' && s[2] == 'p' && s[6..] == rest;
    assert "&apos;" <= s && !("&amp;" <= s) && !("&quot;" <= s);
  }

  lemma UnescapeLess(rest: string)
    ensures Unescape("&lt;" + rest) == "<" + Unescape(rest)
  {
    var s := "&lt;" + rest;
    assert s[1] == 'l' && s[4..] == rest;
    assert "&lt;" <= s && !("&amp;" <= s) && !("&quot;" <= s) && !("&apos;" <= s);
  }

  lemma UnescapeGreater(rest: string)
    ensures Unescape("&gt;" + rest) == ">" + Unescape(rest)
  {
    var s := "&gt;" + rest;
    assert s[1] == 'g' && s[4..] == rest;
    assert "&gt;" <= s && !("&amp;" <= s) && !("&quot;" <= s) && !("&apos;" <= s) && !("&lt;" <= s);
  }

  lemma UnescapeSpelledNul(rest: string)
    ensures Unescape("\\0" + rest) == "\\0" + Unescape(rest)
  {
    UnescapePlain('\\', "0" + rest);
    UnescapePlain('0', rest);
    assert "\\0" + rest == ['\\'] + ("0" + rest);
  }

  lemma UnescapeChar(c: char, rest: string)
    ensures Unescape(EscapeChar(c) + rest) == (if c == '\0' then "\\0" else [c]) + Unescape(rest)
  {
    match c
    case '&' => UnescapeAmpersand(rest);
    case '"' => UnescapeQuote(rest);
    case '\'' => UnescapeApostrophe(rest);
    case '<' => UnescapeLess(rest);
    case '>' => UnescapeGreater(rest);
    case '\0' => UnescapeSpelledNul(rest);
    case _ => UnescapePlain(c, rest);
  }

  /** Decoding gives back the input, with NULs spelled out. */
  lemma {:induction false} UnescapeEscape(s: string)
    ensures Unescape(Escape(s)) == SpellNul(s)
  {
    if s != "" {
      UnescapeChar(s[0], Escape(s[1..]));
      UnescapeEscape(s[1..]);
    }
  }

  lemma {:induction false} SpellNulIdentity(s: string)
    ensures |SpellNul(s)| >= |s| && (SpellNul(s) == s <==> '\0' !in s) && (|SpellNul(s)| == |s| ==> SpellNul(s) == s)
  {
    if s != "" {
      SpellNulIdentity(s[1..]);
      assert s == [s[0]] + s[1..];
    }
  }

  /** The round trip holds exactly for the inputs without NUL. */
  lemma SanitizeRoundTrip(s: string)
    ensures Unescape(Escape(s)) == s <==> '\0' !in s
  {
    UnescapeEscape(s);
    SpellNulIdentity(s);
  }

  /** An `&` at `i` starts one of the five entities. */
  predicate EntityAt(s: string, i: nat) {
    IsAt(s, "&amp;", i) || IsAt(s, "&quot;", i) || IsAt(s, "&apos;", i) || IsAt(s, "&lt;", i) || IsAt(s, "&gt;", i)
  }

  /** Fit to stand between tags or quotes, and inside a NUL-terminated packet. */
  ghost predicate Clean(s: string) {
    && '"' !in s && '\'' !in s && '<' !in s && '>' !in s && '\0' !in s
    && forall i :: 0 <= i < |s| && s[i] == '&' ==> EntityAt(s, i)
  }

  lemma EntityAtConcat(a: string, b: string, i: nat)
    ensures i < |a| && EntityAt(a, i) ==> EntityAt(a + b, i)
    ensures EntityAt(b, i) ==> EntityAt(a + b, |a| + i)
  {
    forall p: string ensures IsAt(a, p, i) ==> IsAt(a + b, p, i) {
      if IsAt(a, p, i) { assert (a + b)[i..i + |p|] == a[i..i + |p|]; }
    }
    forall p: string ensures IsAt(b, p, i) ==> IsAt(a + b, p, |a| + i) {
      if IsAt(b, p, i) { assert (a + b)[|a| + i..|a| + i + |p|] == b[i..i + |p|]; }
    }
  }

  lemma CleanConcat(a: string, b: string)
    requires Clean(a) && Clean(b)
    ensures Clean(a + b)
  {
    forall i | 0 <= i < |a + b| && (a + b)[i] == '&' ensures EntityAt(a + b, i) {
      EntityAtConcat(a, b, i);
      if i >= |a| { EntityAtConcat(a, b, i - |a|); }
    }
  }

  lemma CleanChar(c: char)
    ensures Clean(EscapeChar(c))
  {
    var s := EscapeChar(c);
    assert c == '&' || c == '"' || c == '\'' || c == '<' || c == '>' ==> s[0..|s|] == s;
  }

  /** On every input the output is clean. */
  lemma {:induction false} EscapeIsClean(s: string)
    ensures Clean(Escape(s))
  {
    if s != "" {
      CleanChar(s[0]);
      EscapeIsClean(s[1..]);
      CleanConcat(EscapeChar(s[0]), Escape(s[1..]));
    }
  }
}
