/** Which URLs `parse_URL` accepts and what it makes of them: printed parts come back, and nothing but
    printed parts is accepted. */
module UrlShapes {
  import opened Wrappers
  import opened Text
  import opened Numbers
  import opened ParseUrls
  import PercentCode

  datatype Credentials = Credentials(login: string, password: string)

  /** The texts a URL is put together from, as they stand in it. */
  datatype Parts = Parts(
    protocol: Option<string>,
    credentials: Option<Credentials>,
    host: string,
    port: Option<string>,
    path: Option<string>)

  function HostPort(p: Parts): string {
    match p.port case None => p.host case Some(port) => p.host + [':'] + port
  }

  function Location(p: Parts): string {
    match p.path case None => HostPort(p) case Some(path) => HostPort(p) + ['/'] + path
  }

  function Authority(p: Parts): string {
    match p.credentials
    case None => Location(p)
    case Some(c) => c.login + [':'] + (c.password + ['@'] + Location(p))
  }

  function Render(p: Parts): string {
    match p.protocol case None => Authority(p) case Some(protocol) => protocol + SCHEME + Authority(p)
  }

  predicate Unmarked(s: string) {
    FindText(s, SCHEME, 0) == None
  }

  predicate GoodHost(p: Parts) {
    p.host != "" && ':' !in p.host && '/' !in p.host && (p.port.Some? ==> GoodPort(p.port.value))
  }

  predicate GoodCredentials(p: Parts) {
    match p.credentials
    case None => '@' !in Location(p)
    case Some(c) =>
      && c.login != "" && ':' !in c.login && '@' !in c.login && '@' !in c.password
      && PercentCode.Decode(c.login).Ok? && PercentCode.Decode(c.password).Ok?
  }

  /** The parts can be told apart in the text, and the encoded ones can be decoded. */
  predicate WellFormed(p: Parts) {
    && GoodHost(p)
    && (p.path.Some? ==> PercentCode.Decode(p.path.value).Ok?)
    && GoodCredentials(p)
    && (match p.protocol case None => Unmarked(Authority(p)) case Some(protocol) => Unmarked(protocol))
  }

  /** The record with the present parts filled in; the others keep their defaults. */
  function WithHost(p: Parts, d: UrlInfo): UrlInfo
    requires GoodHost(p)
  {
    d.(host := p.host, port := if p.port.Some? then Value(p.port.value) else d.port)
  }

  function WithPath(p: Parts, d: UrlInfo): UrlInfo
    requires p.path.Some? ==> PercentCode.Decode(p.path.value).Ok?
  {
    match p.path case None => d case Some(path) => d.(path := PercentCode.Decode(path).value)
  }

  function WithLogin(p: Parts, d: UrlInfo): UrlInfo
    requires GoodCredentials(p)
  {
    match p.credentials
    case None => d
    case Some(c) => d.(login := PercentCode.Decode(c.login).value, password := PercentCode.Decode(c.password).value)
  }

  function Filled(p: Parts, d: UrlInfo): UrlInfo
    requires WellFormed(p)
  {
    var named := match p.protocol case None => d case Some(protocol) => d.(protocol := protocol);
    WithHost(p, WithPath(p, WithLogin(p, named)))
  }

  // ---------- printed parts come back ----------

  lemma HostPortParses(p: Parts, d: UrlInfo)
    requires GoodHost(p)
    ensures ParseHostPort(HostPort(p), d) == Ok(WithHost(p, d))
  {
    match p.port
    case None =>
    case Some(port) => FindAfter(p.host, port, ':');
  }

  lemma HostPortHasNoSlash(p: Parts)
    requires GoodHost(p)
    ensures '/' !in HostPort(p)
  {
  }

  lemma LocationParses(p: Parts, d: UrlInfo)
    requires GoodHost(p) && (p.path.Some? ==> PercentCode.Decode(p.path.value).Ok?)
    ensures ParseLocation(Location(p), d) == Ok(WithHost(p, WithPath(p, d)))
  {
    HostPortHasNoSlash(p);
    HostPortParses(p, WithPath(p, d));
    match p.path
    case None =>
    case Some(path) => FindAfter(HostPort(p), path, '/');
  }

  lemma AuthoritySlices(login: string, password: string, rest: string)
    requires ':' !in login && '@' !in login && '@' !in password
    ensures var s := login + [':'] + (password + ['@'] + rest);
            && Find(s, ':', 0) == Some(|login|) && Find(s, '@', 0) == Some(|login| + 1 + |password|)
            && s[..|login|] == login && s[|login| + 1..|login| + 1 + |password|] == password
            && s[|login| + 1 + |password| + 1..] == rest
  {
    FindAfter(login, password + ['@'] + rest, ':');
    var front := login + [':'] + password;
    FindAfter(front, rest, '@');
    Regroup(login + [':'], password, ['@'], rest);
    assert front[..|login|] == login && front[|login| + 1..] == password;
    var s := front + ['@'] + rest;
    assert s[|login| + 1..|front|] == s[..|front|][|login| + 1..];
  }

  lemma LoginParses(s: string, login: string, password: string, rest: string, d: UrlInfo)
    requires login != "" && Find(s, ':', 0) == Some(|login|) && Find(s, '@', 0) == Some(|login| + 1 + |password|)
    requires s[..|login|] == login && s[|login| + 1..|login| + 1 + |password|] == password
    requires s[|login| + 1 + |password| + 1..] == rest
    ensures ParseAuthority(s, d) == ParseLogin(login, password, rest, d)
  {
  }

  lemma CredentialsParse(c: Credentials, rest: string, d: UrlInfo)
    requires c.login != "" && ':' !in c.login && '@' !in c.login && '@' !in c.password
    ensures ParseAuthority(c.login + [':'] + (c.password + ['@'] + rest), d) == ParseLogin(c.login, c.password, rest, d)
  {
    AuthoritySlices(c.login, c.password, rest);
    LoginParses(c.login + [':'] + (c.password + ['@'] + rest), c.login, c.password, rest, d);
  }

  lemma AuthorityParses(p: Parts, d: UrlInfo)
    requires GoodHost(p) && (p.path.Some? ==> PercentCode.Decode(p.path.value).Ok?) && GoodCredentials(p)
    ensures ParseAuthority(Authority(p), d) == Ok(WithHost(p, WithPath(p, WithLogin(p, d))))
  {
    LocationParses(p, WithLogin(p, d));
    match p.credentials
    case None =>
    case Some(c) => CredentialsParse(c, Location(p), d);
  }

  lemma FirstMark(protocol: string, rest: string)
    requires Unmarked(protocol)
    ensures var s := protocol + SCHEME + rest;
            FindText(s, SCHEME, 0) == Some(|protocol|) && s[..|protocol|] == protocol && s[|protocol| + 3..] == rest
  {
    var s := protocol + SCHEME + rest;
    forall k: nat | k < |protocol| ensures !IsAt(s, SCHEME, k) {
      FindTextFirst(protocol, SCHEME, 0, k);
      IsAtThree(s, SCHEME, k);
      IsAtThree(protocol, SCHEME, k);
    }
    IsAtThree(s, SCHEME, |protocol|);
    FindTextIs(s, SCHEME, 0, |protocol|);
  }

  /** The parts of a printed URL come back, whatever the defaults. */
  lemma PrintedIsParsed(p: Parts, d: UrlInfo)
    requires WellFormed(p)
    ensures Parse(Render(p), d) == Ok(Filled(p, d))
  {
    match p.protocol
    case None => AuthorityParses(p, d);
    case Some(protocol) =>
      AuthorityParses(p, d.(protocol := protocol));
      FirstMark(protocol, Authority(p));
  }

  // ---------- nothing else is accepted ----------

  /** A text cut at the first `c`. */
  lemma CutAt(s: string, c: char, i: nat)
    requires Find(s, c, 0) == Some(i)
    ensures i < |s| && s == s[..i] + [c] + s[i + 1..] && c !in s[..i]
  {
    FindFirst(s, c, 0);
    assert s[0..i] == s[..i];
  }

  lemma NotFound(s: string, c: char)
    requires Find(s, c, 0) == None
    ensures c !in s
  {
    FindFirst(s, c, 0);
    assert s[0..] == s;
  }

  lemma HostPortShape(s: string, d: UrlInfo) returns (p: Parts)
    requires ParseHostPort(s, d).Ok? && '/' !in s
    ensures GoodHost(p) && HostPort(p) == s && p.path.None? && p.credentials.None? && p.protocol.None?
  {
    match Find(s, ':', 0) {
      case None =>
        NotFound(s, ':');
        p := Parts(None, None, s, None, None);
      case Some(colon) =>
        CutAt(s, ':', colon);
        p := Parts(None, None, s[..colon], Some(s[colon + 1..]), None);
    }
  }

  lemma LocationShape(s: string, d: UrlInfo) returns (p: Parts)
    requires ParseLocation(s, d).Ok?
    ensures GoodHost(p) && (p.path.Some? ==> PercentCode.Decode(p.path.value).Ok?)
    ensures Location(p) == s && p.credentials.None? && p.protocol.None?
  {
    match Find(s, '/', 0) {
      case None =>
        NotFound(s, '/');
        p := HostPortShape(s, d);
      case Some(slash) =>
        CutAt(s, '/', slash);
        var path := s[slash + 1..];
        var q := HostPortShape(s[..slash], d.(path := PercentCode.Decode(path).value));
        p := q.(path := Some(path));
        assert HostPort(p) == HostPort(q);
    }
  }

  lemma LoginShape(s: string, colon: nat, at: nat)
    requires Find(s, '@', 0) == Some(at) && Find(s, ':', 0) == Some(colon) && colon <= at
    ensures colon < at < |s|
    ensures s == s[..colon] + [':'] + (s[colon + 1..at] + ['@'] + s[at + 1..])
    ensures ':' !in s[..colon] && '@' !in s[..colon] && '@' !in s[colon + 1..at]
  {
    CutAt(s, '@', at);
    CutAt(s, ':', colon);
    var front := s[..at];
    assert forall c :: c in s[..colon] ==> c in front;
    assert forall c :: c in s[colon + 1..at] ==> c in front;
    assert s[colon + 1..] == s[colon + 1..at] + ['@'] + s[at + 1..];
  }

  lemma AuthorityShape(s: string, d: UrlInfo) returns (p: Parts)
    requires ParseAuthority(s, d).Ok?
    ensures GoodHost(p) && (p.path.Some? ==> PercentCode.Decode(p.path.value).Ok?) && GoodCredentials(p)
    ensures Authority(p) == s && p.protocol.None?
  {
    match Find(s, '@', 0) {
      case None =>
        NotFound(s, '@');
        p := LocationShape(s, d);
      case Some(at) =>
        var colon := Find(s, ':', 0).value;
        LoginShape(s, colon, at);
        var login, password := s[..colon], s[colon + 1..at];
        var q := LocationShape(s[at + 1..], d.(login := PercentCode.Decode(login).value,
                                               password := PercentCode.Decode(password).value));
        p := q.(credentials := Some(Credentials(login, password)));
        assert Location(p) == Location(q);
    }
  }

  lemma TextCut(s: string, p: string, i: nat)
    requires IsAt(s, p, i)
    ensures s == s[..i] + p + s[i + |p|..]
  {
  }

  lemma IsAtPrefix(s: string, p: string, i: nat, k: nat)
    requires i <= |s| && IsAt(s[..i], p, k)
    ensures IsAt(s, p, k)
  {
    assert s[k..k + |p|] == s[..i][k..k + |p|];
  }

  lemma BeforeFirst(s: string, p: string, i: nat)
    requires p != "" && FindText(s, p, 0) == Some(i)
    ensures FindText(s[..i], p, 0) == None
  {
    match FindText(s[..i], p, 0)
    case None =>
    case Some(k) =>
      IsAtPrefix(s, p, i, k);
      FindTextFirst(s, p, 0, k);
  }

  lemma UrlShape(url: string, d: UrlInfo) returns (p: Parts)
    requires Parse(url, d).Ok?
    ensures WellFormed(p) && Render(p) == url
  {
    match FindText(url, SCHEME, 0) {
      case None => p := AuthorityShape(url, d);
      case Some(i) =>
        TextCut(url, SCHEME, i);
        BeforeFirst(url, SCHEME, i);
        var q := AuthorityShape(url[i + 3..], d.(protocol := url[..i]));
        p := q.(protocol := Some(url[..i]));
        assert Location(p) == Location(q) && Authority(p) == Authority(q);
    }
  }

  /** A URL is accepted exactly if it is printed from well-formed parts, and the result is always the
      defaults with those parts filled in. */
  lemma AcceptsExactlyThePrinted(url: string, d: UrlInfo, info: UrlInfo)
    ensures Parse(url, d) == Ok(info) <==> exists p :: WellFormed(p) && Render(p) == url && Filled(p, d) == info
  {
    if Parse(url, d).Ok? {
      var p := UrlShape(url, d);
      PrintedIsParsed(p, d);
    }
    forall p | WellFormed(p) && Render(p) == url ensures Parse(url, d) == Ok(Filled(p, d)) {
      PrintedIsParsed(p, d);
    }
  }

  /** Whether a URL is accepted does not depend on the defaults. */
  lemma DefaultsDoNotMatter(url: string, d: UrlInfo, d': UrlInfo)
    ensures Parse(url, d).Ok? <==> Parse(url, d').Ok?
  {
    if Parse(url, d).Ok? {
      var p := UrlShape(url, d);
      PrintedIsParsed(p, d');
    }
    if Parse(url, d').Ok? {
      var p := UrlShape(url, d');
      PrintedIsParsed(p, d);
    }
  }

  // ---------- complete records ----------

  /** A record that can be written as a URL at all. */
  predicate Printable(info: UrlInfo) {
    && Unmarked(info.protocol) && info.login != "" && info.port != 0
    && info.host != "" && ':' !in info.host && '/' !in info.host
    && PercentCode.Bytes(info.login) && PercentCode.Bytes(info.password) && PercentCode.Bytes(info.path)
  }

  function Written(info: UrlInfo): Parts
    requires Printable(info)
  {
    Parts(Some(info.protocol),
          Some(Credentials(PercentCode.Encode(info.login), PercentCode.Encode(info.password))),
          info.host, Some(Decimal(info.port)), Some(PercentCode.Encode(info.path)))
  }

  lemma GoodPortIffInRange(n: nat)
    ensures GoodPort(Decimal(n)) <==> 1 <= n <= 65535
    ensures AllDigits(Decimal(n)) && Value(Decimal(n)) == n
  {
    ValueOfDecimal(n);
    if n <= 65535 {
      assert Power10(5) == 100000;
      DecimalLength(n, 5);
    }
  }

  lemma EncodedIsFree(s: string)
    requires PercentCode.Bytes(s)
    ensures var text := PercentCode.Encode(s);
            ':' !in text && '@' !in text && PercentCode.Decode(text) == Ok(s) && (text == "" <==> s == "")
  {
    PercentCode.EncodeRoundTrip(s);
  }

  /** Round trip: a record written as a URL, every byte of the encoded parts escaped, is read back
      whatever the defaults are. */
  lemma UrlRoundTrip(info: UrlInfo, d: UrlInfo)
    requires Printable(info)
    ensures Parse(Render(Written(info)), d) == Ok(info)
  {
    EncodedIsFree(info.login);
    EncodedIsFree(info.password);
    EncodedIsFree(info.path);
    GoodPortIffInRange(info.port);
    PrintedIsParsed(Written(info), d);
  }

  // ---------- as they stand in the text ----------

  /** A complete URL, put together by hand. */
  lemma CompleteUrl(protocol: string, login: string, password: string, host: string, port: Port, path: string,
                    loginText: string, passwordText: string, pathText: string, d: UrlInfo)
    requires FindText(protocol, "://", 0) == None && port != 0
    requires host != "" && ':' !in host && '/' !in host
    requires loginText != "" && ':' !in loginText && '@' !in loginText && '@' !in passwordText
    requires PercentCode.Decode(loginText) == Ok(login) && PercentCode.Decode(passwordText) == Ok(password)
    requires PercentCode.Decode(pathText) == Ok(path)
    ensures Parse(protocol + "://" + (loginText + ":" + (passwordText + "@"
                  + (host + ":" + Decimal(port) + "/" + pathText))), d)
            == Ok(UrlInfo(protocol, login, password, host, port, path))
  {
    GoodPortIffInRange(port);
    var p := Parts(Some(protocol), Some(Credentials(loginText, passwordText)), host, Some(Decimal(port)),
                   Some(pathText));
    PrintedIsParsed(p, d);
  }

  /** A URL whose texts are written as they are comes back as it stands there. */
  lemma PlainUrlRoundTrip(info: UrlInfo, d: UrlInfo)
    requires FindText(info.protocol, "://", 0) == None && info.port != 0
    requires info.host != "" && ':' !in info.host && '/' !in info.host
    requires info.login != "" && forall c :: c in info.login ==> c !in "%+:@"
    requires (forall c :: c in info.password ==> c !in "%+@") && (forall c :: c in info.path ==> c !in "%+")
    ensures Parse(info.protocol + "://" + (info.login + ":" + (info.password + "@"
                  + (info.host + ":" + Decimal(info.port) + "/" + info.path))), d) == Ok(info)
  {
    assert ':' in "%+:@" && '@' in "%+:@" && '%' in "%+:@" && '+' in "%+:@";
    assert '@' in "%+@" && '%' in "%+@" && '+' in "%+@" && '%' in "%+" && '+' in "%+";
    PercentCode.PlainIsItself(info.login);
    PercentCode.PlainIsItself(info.password);
    PercentCode.PlainIsItself(info.path);
    CompleteUrl(info.protocol, info.login, info.password, info.host, info.port, info.path,
                info.login, info.password, info.path, d);
  }

  /** Every text can be written with nothing escaped but what would be misread, and a space as `+`. */
  lemma ReadableUrlRoundTrip(info: UrlInfo, d: UrlInfo)
    requires FindText(info.protocol, "://", 0) == None && info.port != 0 && info.login != ""
    requires info.host != "" && ':' !in info.host && '/' !in info.host
    ensures Parse(info.protocol + "://" + (PercentCode.Readable(info.login, ":@") + ":"
                  + (PercentCode.Readable(info.password, "@") + "@"
                     + (info.host + ":" + Decimal(info.port) + "/" + PercentCode.Readable(info.path, "")))), d) == Ok(info)
  {
    assert ':' in ":@" && '@' in ":@" && '@' in "@";
    PercentCode.ReadableRoundTrip(info.login, ":@");
    PercentCode.ReadableRoundTrip(info.password, "@");
    PercentCode.ReadableRoundTrip(info.path, "");
    CompleteUrl(info.protocol, info.login, info.password, info.host, info.port, info.path,
                PercentCode.Readable(info.login, ":@"), PercentCode.Readable(info.password, "@"),
                PercentCode.Readable(info.path, ""), d);
  }

  /** A host alone: everything else keeps its default. */
  lemma HostAlone(host: string, d: UrlInfo)
    requires host != "" && ':' !in host && '/' !in host && '@' !in host
    ensures Parse(host, d) == Ok(d.(host := host))
  {
    var p := Parts(None, None, host, None, None);
    if i :| FindText(host, SCHEME, 0) == Some(i) { IsAtThree(host, SCHEME, i); }
    PrintedIsParsed(p, d);
  }

  /** What is refused behind a protocol, and the messages. */
  lemma Rejections(protocol: string, login: string, rest: string, host: string, port: string, d: UrlInfo)
    requires FindText(protocol, "://", 0) == None && '@' !in login && (login == "" || ':' !in login || login[0] == ':')
    requires '@' !in host && ':' !in host && '/' !in host && '@' !in port && '/' !in port
    ensures Parse(protocol + "://" + (login + "@" + rest), d) == Invalid("Cannot parse login information.")
    ensures Parse(protocol + "://", d) == Invalid("Invalid URL: No hostname.")
    ensures !GoodPort(port) ==> Parse(protocol + "://" + (host + ":" + port), d) == Invalid("Invalid port: " + port)
    ensures GoodPort(port) && host == "" ==>
              Parse(protocol + "://" + (host + ":" + port), d) == Invalid("Invalid URL: No hostname.")
  {
    FirstMark(protocol, login + "@" + rest);
    BadLogin(login, rest, d.(protocol := protocol));
    FirstMark(protocol, "");
    assert protocol + "://" + "" == protocol + "://";
    FirstMark(protocol, host + ":" + port);
    PortRefused(host, port, d.(protocol := protocol));
  }

  lemma BadLogin(login: string, rest: string, d: UrlInfo)
    requires '@' !in login && (login == "" || ':' !in login || login[0] == ':')
    ensures ParseAuthority(login + "@" + rest, d) == Invalid("Cannot parse login information.")
  {
    var s := login + "@" + rest;
    FindAfter(login, rest, '@');
  }

  lemma PortRefused(host: string, port: string, d: UrlInfo)
    requires '@' !in host && ':' !in host && '/' !in host && '@' !in port && '/' !in port
    ensures !GoodPort(port) ==> ParseAuthority(host + ":" + port, d) == Invalid("Invalid port: " + port)
    ensures GoodPort(port) && host == "" ==> ParseAuthority(host + ":" + port, d) == Invalid("Invalid URL: No hostname.")
  {
    FindAfter(host, port, ':');
    assert Find(host + ":" + port, '/', 0).None? && Find(host + ":" + port, '@', 0).None?;
  }

  function Zeros(n: nat): string {
    seq(n, i => '0')
  }

  lemma {:induction false} ZerosInFront(n: nat, s: string)
    requires AllDigits(s)
    ensures AllDigits(Zeros(n) + s) && Value(Zeros(n) + s) == Value(s)
  {
    if n > 0 {
      ZerosInFront(n - 1, s);
      LeadingZero(Zeros(n - 1) + s);
      assert Zeros(n) + s == "0" + (Zeros(n - 1) + s);
    } else {
      assert Zeros(0) + s == s;
    }
  }

  /** A port may have leading zeros, as long as there are no more than five digits in all; nothing with
      another character is one. */
  lemma PortsAccepted(zeros: nat, n: nat, port: string)
    ensures GoodPort(Zeros(zeros) + Decimal(n)) <==> 1 <= n <= 65535 && zeros + |Decimal(n)| <= 5
    ensures port == "" || (exists c :: c in port && c !in "0123456789") ==> !GoodPort(port)
  {
    ValueOfDecimal(n);
    ZerosInFront(zeros, Decimal(n));
    Digits();
  }
}
