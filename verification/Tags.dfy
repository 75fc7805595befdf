/** Reading marked-up text: what stands between known marks. */
module Tags {
  import opened Wrappers
  import opened Text

  /** What follows `prefix`. */
  function After(s: string, prefix: string): Option<string> {
    if prefix <= s then Some(s[|prefix|..]) else None
  }

  /** What precedes `suffix`. */
  function Before(s: string, suffix: string): Option<string> {
    if |suffix| <= |s| && s[|s| - |suffix|..] == suffix then Some(s[..|s| - |suffix|]) else None
  }

  /** A text up to the first character of the next tag, which must be the given one, and the rest. */
  function Until(s: string, tag: string): Option<(string, string)> {
    if tag == "" then None else
    match Find(s, tag[0], 0)
    case None => None
    case Some(i) =>
      match After(s[i..], tag)
      case None => None
      case Some(rest) => Some((s[..i], rest))
  }

  lemma AfterPrefix(prefix: string, rest: string)
    ensures After(prefix + rest, prefix) == Some(rest)
  {
    assert prefix <= prefix + rest && (prefix + rest)[|prefix|..] == rest;
  }

  lemma BeforeSuffix(text: string, suffix: string)
    ensures Before(text + suffix, suffix) == Some(text)
  {
    var s := text + suffix;
    assert s[|s| - |suffix|..] == suffix && s[..|s| - |suffix|] == text;
  }

  lemma UntilTag(text: string, tag: string, rest: string)
    requires tag != "" && tag[0] !in text
    ensures Until(text + tag + rest, tag) == Some((text, rest))
  {
    var s := text + tag + rest;
    assert s[0..|text|] == text;
    FindIs(s, tag[0], 0, |text|);
    assert s[|text|..] == tag + rest;
    AfterPrefix(tag, rest);
    assert s[..|text|] == text;
  }

  // ---------- several texts, each followed by its tag ----------

  function Laid(texts: seq<string>, tags: seq<string>): string
    requires |texts| == |tags|
  {
    if texts == [] then "" else texts[0] + tags[0] + Laid(texts[1..], tags[1..])
  }

  function Peel(s: string, tags: seq<string>): Option<(seq<string>, string)>
    decreases |tags|
  {
    if tags == [] then Some(([], s)) else
    match Until(s, tags[0])
    case None => None
    case Some((text, more)) =>
      match Peel(more, tags[1..])
      case None => None
      case Some((texts, rest)) => Some(([text] + texts, rest))
  }

  lemma {:induction false} PeelLaid(texts: seq<string>, tags: seq<string>, rest: string)
    requires |texts| == |tags| && forall i :: 0 <= i < |tags| ==> tags[i] != "" && tags[i][0] !in texts[i]
    ensures Peel(Laid(texts, tags) + rest, tags) == Some((texts, rest))
    decreases |texts|
  {
    if texts == [] {
      assert "" + rest == rest;
    } else {
      PeelLaid(texts[1..], tags[1..], rest);
      Assoc(texts[0] + tags[0], Laid(texts[1..], tags[1..]), rest);
      UntilTag(texts[0], tags[0], Laid(texts[1..], tags[1..]) + rest);
      assert texts == [texts[0]] + texts[1..];
    }
  }

  /** Nothing that contains the beginning of its tag is ever read. */
  lemma {:induction false} PeeledIsClean(s: string, tags: seq<string>)
    requires Peel(s, tags).Some?
    ensures |Peel(s, tags).value.0| == |tags|
    ensures forall i :: 0 <= i < |tags| ==> tags[i] != "" && tags[i][0] !in Peel(s, tags).value.0[i]
    decreases |tags|
  {
    if tags != [] {
      var (text, more) := Until(s, tags[0]).value;
      FindFirst(s, tags[0][0], 0);
      assert s[0..|text|] == text;
      PeeledIsClean(more, tags[1..]);
    }
  }
}
