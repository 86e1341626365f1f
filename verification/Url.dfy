/** URLs: parsing by splitting at fixed separators, printing, and how far the two undo each
    other. */
module Url {
  import opened Decimal

  datatype URL = URL(scheme: string, host: string, port: int, path: string, valid: bool)

  // ---------- searching ----------

  predicate At(s: string, pat: string, i: nat) { i + |pat| <= |s| && s[i..i + |pat|] == pat }

  /** Position of the first occurrence at or after `from`, or the length plus one. */
  function Find(s: string, pat: string, from: nat): (i: nat)
    requires from <= |s|
    ensures from <= i <= |s| + 1
    ensures i <= |s| ==> At(s, pat, i)
    ensures forall j :: from <= j < i && j <= |s| ==> !At(s, pat, j)
    decreases |s| - from
  {
    if At(s, pat, from) then from
    else if from == |s| then |s| + 1
    else Find(s, pat, from + 1)
  }

  /** Position of the last occurrence of a character before `end`, or -1. */
  function FindLast(s: string, c: char, end: nat): (i: int)
    requires end <= |s|
    ensures -1 <= i < end
    ensures i >= 0 ==> s[i] == c
    ensures forall j :: i < j < end && 0 <= j ==> s[j] != c
    decreases end
  {
    if end == 0 then -1 else if s[end - 1] == c then end - 1 else FindLast(s, c, end - 1)
  }

  lemma FindIs(s: string, pat: string, i: nat)
    requires At(s, pat, i) && forall j :: 0 <= j < i ==> !At(s, pat, j)
    ensures Find(s, pat, 0) == i
  {
  }

  lemma FindLastIs(s: string, c: char, i: nat)
    requires i < |s| && s[i] == c && forall j :: i < j < |s| ==> s[j] != c
    ensures FindLast(s, c, |s|) == i
  {
  }

  // ---------- atoi and %d ----------

  predicate IsSpace(c: char) { c == ' ' || '\t' <= c <= '\r' }

  function LeadingDigits(s: string): (n: nat)
    ensures n <= |s| && AllDigits(s[..n])
    ensures n < |s| ==> !IsDigit(s[n])
  {
    if s == "" || !IsDigit(s[0]) then 0
    else
      assert forall i :: 0 < i < 1 + LeadingDigits(s[1..]) ==> s[i] == s[1..][i - 1];
      1 + LeadingDigits(s[1..])
  }

  /** Skips white space, takes a sign and then the digits there are. */
  function Atoi(s: string): int
    decreases |s|
  {
    if s == "" then 0
    else if IsSpace(s[0]) then Atoi(s[1..])
    else if s[0] == '-' then 0 - Read(s[1..][..LeadingDigits(s[1..])], 0)
    else if s[0] == '+' then Read(s[1..][..LeadingDigits(s[1..])], 0)
    else Read(s[..LeadingDigits(s)], 0)
  }

  function PrintInt(n: int): string { if n < 0 then "-" + Numeral(-n) else Numeral(n) }

  lemma LeadingDigitsAll(s: string)
    requires AllDigits(s)
    ensures LeadingDigits(s) == |s|
  {
  }

  lemma AtoiOfPrinted(n: int)
    ensures Atoi(PrintInt(n)) == n
  {
    var m := if n < 0 then -n else n;
    var s := Numeral(m);
    NumeralRoundTrip(m);
    LeadingDigitsAll(s);
    assert s[..|s|] == s;
    if n < 0 {
      assert ("-" + s)[1..] == s;
    }
  }

  lemma PrintedHasNo(n: int, c: char)
    requires !IsDigit(c) && c != '-'
    ensures c !in PrintInt(n)
  {
  }

  // ---------- parse and toString ----------

  /** The part between scheme and path split into host and port. */
  function ParseAuthority(scheme: string, s: string, path: string): URL {
    var i := FindLast(s, ':', |s|);
    if i >= 0 then
      var port := Atoi(s[i + 1..]);
      URL(scheme, s[..i], port, path, 0 < port <= 65535 && ':' !in s[..i])
    else URL(scheme, s, 80, path, true)
  }

  function ParseRest(scheme: string, s: string): URL {
    var i := Find(s, "/", 0);
    if i <= |s| then ParseAuthority(scheme, s[..i], s[i + 1..]) else ParseAuthority(scheme, s, "")
  }

  function Parse(s: string): URL {
    var i := Find(s, "://", 0);
    if i <= |s| then ParseRest(s[..i], s[i + 3..]) else ParseRest("http", s)
  }

  function PortPart(u: URL): string {
    if u.scheme == "http" && u.port == 80 then "" else ":" + PrintInt(u.port)
  }

  function ToString(u: URL): string {
    u.scheme + "://" + u.host + PortPart(u) + "/" + u.path
  }

  // ---------- what printing keeps ----------

  /** What parsing establishes about the parts, whether or not they are valid. */
  ghost predicate Parsed(u: URL) {
    && Find(u.scheme + "://", "://", 0) == |u.scheme|
    && '/' !in u.host
    && (u.valid <==> 0 < u.port <= 65535 && ':' !in u.host)
  }

  lemma ParseAuthorityParts(scheme: string, s: string, path: string)
    requires Find(scheme + "://", "://", 0) == |scheme| && '/' !in s
    ensures Parsed(ParseAuthority(scheme, s, path)) && ParseAuthority(scheme, s, path).scheme == scheme
  {
  }

  function BeforeSlash(s: string): string {
    if Find(s, "/", 0) <= |s| then s[..Find(s, "/", 0)] else s
  }

  lemma BeforeSlashHasNone(s: string)
    ensures '/' !in BeforeSlash(s)
  {
    var h := BeforeSlash(s);
    forall j | 0 <= j < |h| ensures h[j] != '/' {
      assert !At(s, "/", j);
      assert s[j..j + 1] == [s[j]];
    }
  }

  lemma ParseRestParts(scheme: string, s: string)
    requires Find(scheme + "://", "://", 0) == |scheme|
    ensures Parsed(ParseRest(scheme, s))
  {
    var i := Find(s, "/", 0);
    BeforeSlashHasNone(s);
    ParseAuthorityParts(scheme, BeforeSlash(s), if i <= |s| then s[i + 1..] else "");
  }

  lemma ParseParts(s: string)
    ensures Parsed(Parse(s))
  {
    var i := Find(s, "://", 0);
    if i <= |s| {
      var p := s[..i] + "://";
      assert p == s[..i + 3];
      forall j | 0 <= j < i ensures !At(p, "://", j) {
        assert !At(s, "://", j);
        assert j + 3 <= |p| ==> p[j..j + 3] == s[j..j + 3];
      }
      FindIs(p, "://", i);
      ParseRestParts(s[..i], s[i + 3..]);
    } else {
      SchemeHttp();
      ParseRestParts("http", s);
    }
  }

  lemma SchemeHttp()
    ensures Find("http://", "://", 0) == 4 && "http" + "://" == "http://"
  {
    var s := "http://";
    assert s[0..3] == "htt" && s[1..4] == "ttp" && s[2..5] == "tp:" && s[3..6] == "p:/" && s[4..7] == "://";
    FindIs(s, "://", 4);
  }

  lemma FirstSeparator(scheme: string, rest: string)
    requires Find(scheme + "://", "://", 0) == |scheme|
    ensures Find(scheme + "://" + rest, "://", 0) == |scheme|
  {
    var p, s := scheme + "://", scheme + "://" + rest;
    forall j | 0 <= j < |scheme| ensures !At(s, "://", j) {
      assert !At(p, "://", j);
      assert s[j..j + 3] == p[j..j + 3];
    }
    assert s[|scheme|..|scheme| + 3] == "://";
    FindIs(s, "://", |scheme|);
  }

  lemma FirstSlash(a: string, path: string)
    requires '/' !in a
    ensures Find(a + "/" + path, "/", 0) == |a|
  {
    var s := a + "/" + path;
    forall j | 0 <= j < |a| ensures !At(s, "/", j) {
      assert s[j..j + 1] == [a[j]];
    }
    assert s[|a|..|a| + 1] == "/";
    FindIs(s, "/", |a|);
  }

  lemma ParseSplits(scheme: string, rest: string)
    requires Find(scheme + "://", "://", 0) == |scheme|
    ensures Parse(scheme + "://" + rest) == ParseRest(scheme, rest)
  {
    var s := scheme + "://" + rest;
    FirstSeparator(scheme, rest);
    assert s[..|scheme|] == scheme && s[|scheme| + 3..] == rest;
  }

  lemma RestSplits(scheme: string, a: string, path: string)
    requires '/' !in a
    ensures ParseRest(scheme, a + "/" + path) == ParseAuthority(scheme, a, path)
  {
    var s := a + "/" + path;
    FirstSlash(a, path);
    assert s[..|a|] == a && s[|a| + 1..] == path;
  }

  /** Parsing the printed form, down to the part that holds host and port. */
  lemma ParsePrinted(u: URL)
    requires Parsed(u)
    ensures Parse(ToString(u)) == ParseAuthority(u.scheme, u.host + PortPart(u), u.path)
  {
    var a := u.host + PortPart(u);
    assert '/' !in a by { PrintedHasNo(u.port, '/'); }
    assert ToString(u) == u.scheme + "://" + (a + "/" + u.path);
    ParseSplits(u.scheme, a + "/" + u.path);
    RestSplits(u.scheme, a, u.path);
  }

  lemma PortComesBack(u: URL)
    requires Parsed(u) && !(u.scheme == "http" && u.port == 80)
    ensures ParseAuthority(u.scheme, u.host + PortPart(u), u.path) == u
  {
    var digits := PrintInt(u.port);
    var a := u.host + ":" + digits;
    assert u.host + PortPart(u) == a;
    PrintedHasNo(u.port, ':');
    forall j | |u.host| < j < |a| ensures a[j] != ':' {
      assert a[j] == digits[j - |u.host| - 1];
    }
    FindLastIs(a, ':', |u.host|);
    assert a[..|u.host|] == u.host && a[|u.host| + 1..] == digits;
    AtoiOfPrinted(u.port);
  }

  /** The URLs that printing damages: the port is left out, and a colon of the host takes its
      place. */
  predicate Ambiguous(u: URL) { u.scheme == "http" && u.port == 80 && ':' in u.host }

  /** Parsing the printed form gives the URL back exactly when it is not one of those. */
  lemma PrintedComesBack(u: URL)
    requires Parsed(u)
    ensures Parse(ToString(u)) == u <==> !Ambiguous(u)
  {
    ParsePrinted(u);
    if u.scheme == "http" && u.port == 80 {
      assert u.host + PortPart(u) == u.host;
      var i := FindLast(u.host, ':', |u.host|);
      if i < 0 {
        assert ':' !in u.host;
      } else {
        assert u.host[i] == ':' && |u.host[..i]| < |u.host|;
      }
    } else {
      PortComesBack(u);
    }
  }

  /** The number read as the port is one that an int can hold; on others atoi is not defined. */
  ghost predicate PortFits(s: string) { -0x8000_0000 <= Parse(s).port <= 0x7fff_ffff }

  /** The exact round trip: for every string s, printing the URL parsed from s and parsing that
      gives the same URL, unless it has scheme http, port 80 and a colon in its host, in which
      case it never does. */
  lemma RoundTrip(s: string)
    requires PortFits(s)
    ensures Parse(ToString(Parse(s))) == Parse(s) <==> !Ambiguous(Parse(s))
  {
    ParseParts(s);
    PrintedComesBack(Parse(s));
  }

  /** What a text means, put together from its parts: a scheme without the separator, a host, a
      port if there is one, and a path. */
  lemma ParseWithPort(scheme: string, host: string, digits: string, path: string)
    requires Find(scheme + "://", "://", 0) == |scheme| && '/' !in host && '/' !in digits && ':' !in digits
    ensures var p := Atoi(digits);
      Parse(scheme + "://" + (host + ":" + digits + "/" + path)) == URL(scheme, host, p, path, 0 < p <= 65535 && ':' !in host)
  {
    var a := host + ":" + digits;
    ParseSplits(scheme, a + "/" + path);
    RestSplits(scheme, a, path);
    FindLastIs(a, ':', |host|);
    assert a[..|host|] == host && a[|host| + 1..] == digits;
  }

  lemma AuthorityWithoutPort(scheme: string, host: string, path: string)
    requires ':' !in host
    ensures ParseAuthority(scheme, host, path) == URL(scheme, host, 80, path, true)
  {
  }

  lemma {:induction false} NoSlash(host: string, from: nat)
    requires '/' !in host && from <= |host|
    ensures Find(host, "/", from) == |host| + 1
    decreases |host| - from
  {
    if from < |host| {
      assert host[from..from + 1][0] == host[from];
      NoSlash(host, from + 1);
    }
  }

  /** Without a port it is 80, and without a slash the path is empty. */
  lemma ParseWithoutPort(scheme: string, host: string, path: string)
    requires Find(scheme + "://", "://", 0) == |scheme| && '/' !in host && ':' !in host
    ensures Parse(scheme + "://" + (host + "/" + path)) == URL(scheme, host, 80, path, true)
    ensures Parse(scheme + "://" + host) == URL(scheme, host, 80, "", true)
  {
    var rest := host + "/" + path;
    ParseSplits(scheme, rest);
    RestSplits(scheme, host, path);
    AuthorityWithoutPort(scheme, host, path);
    ParseSplits(scheme, host);
    NoSlash(host, 0);
    AuthorityWithoutPort(scheme, host, "");
  }

  /** Without a scheme it is http. */
  lemma ParseWithoutScheme(s: string)
    requires forall i :: !At(s, "://", i)
    ensures Parse(s) == Parse("http" + "://" + s)
  {
    SchemeHttp();
    ParseSplits("http", s);
  }

  lemma AtoiSigned(sign: string, digits: string, rest: string)
    requires (sign == "" || sign == "+" || sign == "-") && AllDigits(digits) && digits != ""
    requires rest == "" || !IsDigit(rest[0])
    ensures Atoi(sign + digits + rest) == if sign == "-" then 0 - Read(digits, 0) else Read(digits, 0)
  {
    var s := digits + rest;
    LeadingDigitsOf(digits, rest);
    assert s[..|digits|] == digits;
    if sign == "" {
      assert sign + digits + rest == s;
      assert s[0] == digits[0];
    } else {
      assert (sign + digits + rest)[1..] == s;
    }
  }

  lemma {:induction false} LeadingDigitsOf(digits: string, rest: string)
    requires AllDigits(digits) && (rest == "" || !IsDigit(rest[0]))
    ensures LeadingDigits(digits + rest) == |digits|
    decreases |digits|
  {
    if digits == "" {
      assert digits + rest == rest;
    } else {
      LeadingDigitsOf(digits[1..], rest);
      assert (digits + rest)[1..] == digits[1..] + rest;
    }
  }

  /** atoi skips white space, honours a sign, reads the digits there are and ignores the rest. */
  lemma {:induction false} AtoiReads(blanks: string, sign: string, digits: string, rest: string)
    requires forall i :: 0 <= i < |blanks| ==> blanks[i] == ' ' || 9 <= blanks[i] as int <= 13
    requires (sign == "" || sign == "+" || sign == "-") && AllDigits(digits) && digits != ""
    requires rest == "" || !IsDigit(rest[0])
    ensures Atoi(blanks + (sign + digits + rest)) == if sign == "-" then 0 - Read(digits, 0) else Read(digits, 0)
    decreases |blanks|
  {
    var s := sign + digits + rest;
    if blanks == "" {
      assert blanks + s == s;
      AtoiSigned(sign, digits, rest);
    } else {
      assert (blanks + s)[1..] == blanks[1..] + s;
      AtoiReads(blanks[1..], sign, digits, rest);
    }
  }

  lemma AtoiOfEighty()
    ensures Atoi("80") == 80
  {
    LeadingDigitsAll("80");
    assert "80"[..2] == "80" && "80"[1..] == "0" && "0"[1..] == "";
    assert Read("0", 8) == 80;
  }

  lemma AtoiOfLetter()
    ensures Atoi("b") == 0
  {
    assert LeadingDigits("b") == 0 && "b"[..0] == "";
  }

  lemma Spelled()
    ensures "http://a:b:80/" == "http" + "://" + ("a:b" + ":" + "80" + "/" + "")
    ensures "http://a:b/" == "http" + "://" + ("a" + ":" + "b" + "/" + "")
    ensures "http" + "://" + "a:b" + "" + "/" + "" == "http://a:b/"
  {
  }

  /** Such a URL: printing drops the port and parsing then takes the host's second part for it. */
  lemma PrintingLosesPort()
    ensures Parse("http://a:b:80/") == URL("http", "a:b", 80, "", false)
    ensures ToString(Parse("http://a:b:80/")) == "http://a:b/"
    ensures Parse("http://a:b/") == URL("http", "a", 0, "", false)
  {
    Spelled();
    AtoiOfEighty();
    AtoiOfLetter();
    assert "a:b"[1] == ':';
    SchemeHttp();
    ParseWithPort("http", "a:b", "80", "");
    ParseWithPort("http", "a", "b", "");
  }

  /** On every valid URL parse and toString undo each other, and printing is idempotent. */
  lemma ValidRoundTrip(s: string)
    requires Parse(s).valid
    ensures Parse(ToString(Parse(s))) == Parse(s)
    ensures ToString(Parse(ToString(Parse(s)))) == ToString(Parse(s))
  {
    ParseParts(s);
    PrintedComesBack(Parse(s));
  }

  /** operator== compares printed forms; on valid URLs that is equality of the components. */
  lemma EqualWhenPrintedEqual(s: string, t: string)
    requires Parse(s).valid && Parse(t).valid
    ensures ToString(Parse(s)) == ToString(Parse(t)) <==> Parse(s) == Parse(t)
  {
    ValidRoundTrip(s);
    ValidRoundTrip(t);
  }

  /** The URL object: parse assigns its fields one after the other. */
  class Location {
    var scheme: string
    var host: string
    var port: int
    var path: string
    var valid: bool

    ghost function Value(): URL
      reads this
    {
      URL(scheme, host, port, path, valid)
    }

    constructor (text: string)
      requires PortFits(text)
      ensures Value() == Parse(text)
    {
      scheme, host, port, path, valid := "", "", 0, "", false;
      new;
      DoParse(text);
    }

    method DoParse(text: string)
      requires PortFits(text)
      modifies this
      ensures Value() == Parse(text)
    {
      var s := text;
      valid := true;
      var i := Find(s, "://", 0);
      if i <= |s| {
        scheme := s[..i];
        s := s[i + 3..];
      } else {
        scheme := "http";
      }
      assert Parse(text) == ParseRest(scheme, s);
      i := Find(s, "/", 0);
      if i <= |s| {
        path := s[i + 1..];
        s := s[..i];
      } else {
        path := "";
      }
      assert Parse(text) == ParseAuthority(scheme, s, path);
      ParseHostAndPort(s);
    }

    method ParseHostAndPort(text: string)
      requires valid
      modifies this`host, this`port, this`valid
      ensures Value() == ParseAuthority(scheme, text, path)
    {
      var s := text;
      var k := FindLast(s, ':', |s|);
      if k >= 0 {
        port := Atoi(s[k + 1..]);
        if port <= 0 || port > 65535 {
          valid := false;
        }
        s := s[..k];
      } else {
        port := 80;
      }
      if ':' in s {
        valid := false;
      }
      host := s;
    }

    /** Parsing what is printed gives this URL back, unless the host's colon gets in the way. */
    method Print() returns (s: string)
      ensures s == ToString(Value())
      ensures Parsed(Value()) ==> (Parse(s) == Value() <==> !Ambiguous(Value()))
    {
      if Parsed(Value()) {
        PrintedComesBack(Value());
      }
      s := scheme + "://" + host +
           (if scheme == "http" && port == 80 then "" else ":" + PrintInt(port)) + "/" + path;
    }
  }
}
