/** WebSocket URIs: the parsing constructor and the printer of libs/websocketpp/uri.hpp
    (section 3 of RFC 6455). */
module Uri {
  import opened Bytes

  const DEFAULT_PORT: nat := 80
  const DEFAULT_SECURE_PORT: nat := 443

  // The fields a valid uri object holds.
  datatype Fields = Fields(secure: bool, scheme: string, host: string, port: nat, resource: string)

  function DefaultPort(secure: bool): (r: nat) { if secure then DEFAULT_SECURE_PORT else DEFAULT_PORT }

  // ---------------------------------------------------------------- the parser as a function

  // The schemes in the order the constructor tries them, each needing one character after "://".
  function Scheme(s: string): (r: Option<string>) {
    if |s| >= 7 && s[..6] == "wss://" then Some("wss")
    else if |s| >= 6 && s[..5] == "ws://" then Some("ws")
    else if |s| >= 8 && s[..7] == "http://" then Some("http")
    else if |s| >= 9 && s[..8] == "https://" then Some("https")
    else None
  }

  predicate Secure(scheme: string) { scheme == "wss" || scheme == "https" }

  lemma SchemeFits(s: string)
    requires Scheme(s).Some?
    ensures |Scheme(s).value| + 3 < |s|
  {
  }

  // The first place from `i` on that holds `c` or `d`, or the end.
  function Find(s: string, i: nat, c: char, d: char): (r: nat)
    requires i <= |s|
    ensures i <= r <= |s|
    ensures forall k :: i <= k < r ==> s[k] != c && s[k] != d
    ensures r < |s| ==> s[r] == c || s[r] == d
    decreases |s| - i
  {
    if i == |s| || s[i] == c || s[i] == d then i else Find(s, i + 1, c, d)
  }

  predicate Blank(c: char) { c == ' ' || '\t' <= c <= '\r' }

  predicate Digit(c: char) { '0' <= c <= '9' }

  function SkipBlanks(s: string): (r: string) {
    if s != "" && Blank(s[0]) then SkipBlanks(s[1..]) else s
  }

  // The number a digit string begins with, read on to `value`.
  function LeadingNumber(s: string, value: nat): (r: nat) {
    if s != "" && Digit(s[0]) then LeadingNumber(s[1..], value * 10 + (s[0] as int - '0' as int)) else value
  }

  // static_cast<unsigned int>(atoi(s)): blanks, a sign, digits, anything.  Numerals that do not
  // fit saturate as strtol's do and are then narrowed to 32 bits.
  function Atoi(s: string): (r: nat)
    ensures r < 0x1_0000_0000
  {
    var t := SkipBlanks(s);
    var magnitude := LeadingNumber(if t != "" && (t[0] == '-' || t[0] == '+') then t[1..] else t, 0);
    var signed: int := if t != "" && t[0] == '-' then -(magnitude as int) else magnitude as int;
    var long := if signed > 0x7FFF_FFFF_FFFF_FFFF then 0x7FFF_FFFF_FFFF_FFFF
                else if signed < -0x8000_0000_0000_0000 then -0x8000_0000_0000_0000 else signed;
    long % 0x1_0000_0000
  }

  function PortFromString(port: string, secure: bool): (r: Option<nat>)
    ensures r.Some? ==> 1 <= r.value <= 65535
  {
    if port == "" then Some(DefaultPort(secure))
    else
      var n := Atoi(port);
      if n > 65535 || n == 0 then None else Some(n)
  }

  // Where the host ends and what follows it.
  datatype Authority = Authority(host: string, next: nat, portFollows: bool)

  function ParseHost(s: string, n: nat): (r: Option<Authority>)
    requires n < |s|
    ensures r.Some? ==> r.value.next <= |s|
  {
    if s[n] == '[' then
      var j := Find(s, n + 1, ']', ']');
      if j == |s| then None
      else if j + 1 == |s| then Some(Authority(s[n + 1..j], j + 1, false))
      else if s[j + 1] == '/' then Some(Authority(s[n + 1..j], j + 2, false))
      else if s[j + 1] == ':' then Some(Authority(s[n + 1..j], j + 2, true))
      else None
    else
      var j := Find(s, n, '/', ':');
      if j == |s| then Some(Authority(s[n..j], j, false))
      else Some(Authority(s[n..j], j + 1, s[j] == ':'))
  }

  // The port and the resource, once the host is known.
  function Finish(s: string, scheme: string, a: Authority): (r: Option<Fields>)
    requires a.next <= |s|
  {
    var p := if a.portFollows then Find(s, a.next, '/', '/') else a.next;
    var port := PortFromString(s[a.next..p], Secure(scheme));
    var from := if a.portFollows && p < |s| then p + 1 else p;
    if port.None? then None else Some(Fields(Secure(scheme), scheme, a.host, port.value, "/" + s[from..]))
  }

  function Parse(s: string): (r: Option<Fields>) {
    var scheme := Scheme(s);
    if scheme.None? then None
    else
      var authority := ParseHost(s, |scheme.value| + 3);
      if authority.None? then None else Finish(s, scheme.value, authority.value)
  }

  // ---------------------------------------------------------------- the printer

  function Decimal(n: nat): (r: string)
    ensures r != "" && forall k :: 0 <= k < |r| ==> Digit(r[k])
  {
    var digit := ('0' as int + n % 10) as char;
    if n < 10 then [digit] else Decimal(n / 10) + [digit]
  }

  function PortPart(u: Fields): (r: string) {
    if u.port != DefaultPort(u.secure) then ":" + Decimal(u.port) else ""
  }

  function Print(u: Fields): (r: string) {
    (u.scheme + "://") + (u.host + (PortPart(u) + u.resource))
  }

  lemma PrintFlat(u: Fields)
    ensures Print(u) == u.scheme + "://" + u.host + PortPart(u) + u.resource
  {
  }

  // ---------------------------------------------------------------- the round trip

  // What every successful parse yields.
  ghost predicate Parsed(u: Fields) {
    && (u.scheme == "wss" || u.scheme == "ws" || u.scheme == "http" || u.scheme == "https")
    && u.secure == Secure(u.scheme)
    && 1 <= u.port <= 65535
    && u.resource != "" && u.resource[0] == '/'
  }

  // The printer writes no brackets, so this is what a host must be for the parser to find it again.
  predicate PlainHost(host: string) {
    (host != "" ==> host[0] != '[') && forall k :: 0 <= k < |host| ==> host[k] != ':' && host[k] != '/'
  }

  lemma ParseIsParsed(s: string)
    requires Parse(s).Some?
    ensures Parsed(Parse(s).value)
  {
  }

  // A host that did not stand in brackets is plain.
  lemma UnbracketedIsPlain(s: string)
    requires Parse(s).Some? && s[|Scheme(s).value| + 3] != '['
    ensures PlainHost(Parse(s).value.host)
  {
  }

  lemma {:induction false} NumberOfDecimal(n: nat, tail: string)
    requires tail != "" ==> !Digit(tail[0])
    ensures LeadingNumber(Decimal(n) + tail, 0) == n
  {
    if n < 10 {
      assert (Decimal(n) + tail)[1..] == tail;
    } else {
      var last := [('0' as int + n % 10) as char];
      NumberOnward(Decimal(n / 10), last + tail, 0);
      NumberOfDecimal(n / 10, "");
      assert Decimal(n / 10) + "" == Decimal(n / 10);
      NumberOnward(Decimal(n / 10), "", 0);
      assert Decimal(n) + tail == Decimal(n / 10) + (last + tail);
      assert (last + tail)[1..] == tail;
    }
  }

  lemma {:induction false} NumberOnward(digits: string, tail: string, value: nat)
    requires forall k :: 0 <= k < |digits| ==> Digit(digits[k])
    ensures LeadingNumber(digits + tail, value) == LeadingNumber(tail, LeadingNumber(digits, value))
  {
    if digits == "" {
      assert digits + tail == tail;
    } else {
      assert (digits + tail)[1..] == digits[1..] + tail;
      NumberOnward(digits[1..], tail, value * 10 + (digits[0] as int - '0' as int));
    }
  }

  lemma AtoiOfDigits(s: string)
    requires s != "" && Digit(s[0]) && LeadingNumber(s, 0) <= 65535
    ensures Atoi(s) == LeadingNumber(s, 0)
  {
    hide LeadingNumber;
    assert SkipBlanks(s) == s;
  }

  lemma PortOfDecimal(n: nat, secure: bool)
    requires 1 <= n <= 65535
    ensures PortFromString(Decimal(n), secure) == Some(n)
  {
    hide LeadingNumber, Decimal, SkipBlanks, Atoi;
    var s := Decimal(n);
    NumberOfDecimal(n, "");
    assert s + "" == s;
    AtoiOfDigits(s);
  }

  lemma FindIs(s: string, i: nat, c: char, d: char, r: nat)
    requires i <= r <= |s|
    requires forall k :: i <= k < r ==> s[k] != c && s[k] != d
    requires r < |s| ==> s[r] == c || s[r] == d
    ensures Find(s, i, c, d) == r
  {
  }

  lemma SchemeOfPrint(u: Fields)
    requires Parsed(u)
    ensures Scheme(Print(u)) == Some(u.scheme)
    ensures |u.scheme| + 3 < |Print(u)| && Print(u)[..|u.scheme| + 3] == u.scheme + "://"
    ensures Print(u)[|u.scheme| + 3..] == u.host + (PortPart(u) + u.resource)
  {
    hide PortPart;
    var p := Print(u);
    assert p[..|u.scheme| + 3] == u.scheme + "://";
    if u.scheme == "wss" {
    } else if u.scheme == "ws" {
      assert p[2] == ':';
    } else if u.scheme == "http" {
      assert p[0] == 'h';
    } else {
      assert p[4] == 's';
    }
  }

  // A plain host is read back whole, with what follows it.
  lemma PlainHostReadsBack(s: string, n: nat, host: string, tail: string)
    requires n < |s| && s[n..] == host + tail && PlainHost(host)
    requires tail != "" && (tail[0] == ':' || tail[0] == '/')
    ensures ParseHost(s, n) == Some(Authority(host, n + |host| + 1, tail[0] == ':'))
    ensures s[n + |host| + 1..] == tail[1..]
  {
    forall k | n <= k < |s|
      ensures s[k] == (host + tail)[k - n]
    {
      assert s[n..][k - n] == s[k];
    }
    FindIs(s, n, '/', ':', n + |host|);
    assert s[n..n + |host|] == host;
    assert s[n + |host| + 1..] == s[n..][|host| + 1..];
  }

  // Digits up to a slash are read back whole, with what follows the slash.
  lemma PortReadsBack(s: string, from: nat, digits: string, rest: string)
    requires from <= |s| && s[from..] == digits + rest && rest != "" && rest[0] == '/'
    requires forall k :: 0 <= k < |digits| ==> Digit(digits[k])
    ensures var p := Find(s, from, '/', '/');
      p == from + |digits| < |s| && s[from..p] == digits && "/" + s[p + 1..] == rest
  {
    forall k | from <= k < |s|
      ensures s[k] == (digits + rest)[k - from]
    {
      assert s[from..][k - from] == s[k];
    }
    var p := from + |digits|;
    FindIs(s, from, '/', '/', p);
    assert s[p..] == s[from..][|digits|..] == rest;
  }

  lemma FinishReadsBack(s: string, u: Fields, from: nat)
    requires Parsed(u) && 1 <= from <= |s| && s[from - 1..] == PortPart(u) + u.resource
    ensures Finish(s, u.scheme, Authority(u.host, from, u.port != DefaultPort(u.secure))) == Some(u)
  {
    hide Find, PortFromString, Decimal;
    assert s[from..] == s[from - 1..][1..];
    if u.port == DefaultPort(u.secure) {
      assert s[from..from] == "" && "/" + s[from..] == u.resource;
      EmptyPort(u.secure);
    } else {
      var digits := Decimal(u.port);
      assert s[from..] == digits + u.resource;
      PortReadsBack(s, from, digits, u.resource);
      PortOfDecimal(u.port, u.secure);
    }
  }

  lemma PlainRoundTrip(u: Fields)
    requires Parsed(u) && PlainHost(u.host)
    ensures Parse(Print(u)) == Some(u)
  {
    hide Print, Scheme, ParseHost, Finish;
    var s := Print(u);
    var n := |u.scheme| + 3;
    var tail := PortPart(u) + u.resource;
    SchemeOfPrint(u);
    PlainHostReadsBack(s, n, u.host, tail);
    assert s[n + |u.host|..] == s[n..][|u.host|..] == tail;
    FinishReadsBack(s, u, n + |u.host| + 1);
  }

  // What atoi takes for white space and for digits.
  lemma Characters(c: char)
    ensures Blank(c) <==> c as int == 32 || 9 <= c as int <= 13
    ensures Digit(c) <==> 48 <= c as int <= 57
  {
  }

  // Blanks and a sign may precede the digits; a negative number wraps round to 32 bits.
  lemma Signs(digits: string)
    requires digits != "" && Digit(digits[0])
    ensures Atoi("+" + digits) == Atoi(digits) == Atoi(" " + digits)
    ensures var n := LeadingNumber(digits, 0);
      n <= 0x8000_0000_0000_0000 ==> Atoi("-" + digits) == (-(n as int)) % 0x1_0000_0000
  {
    assert ("+" + digits)[1..] == digits && ("-" + digits)[1..] == digits && (" " + digits)[1..] == digits;
    assert SkipBlanks(digits) == digits && SkipBlanks(" " + digits) == SkipBlanks(digits);
    assert SkipBlanks("+" + digits) == "+" + digits && SkipBlanks("-" + digits) == "-" + digits;
  }

  // Each scheme with its port, where none is given.
  lemma SchemesAndPorts(host: string, rest: string)
    requires PlainHost(host)
    ensures Parse("ws://" + host + ("/" + rest)) == Some(Fields(false, "ws", host, 80, "/" + rest))
    ensures Parse("wss://" + host + ("/" + rest)) == Some(Fields(true, "wss", host, 443, "/" + rest))
    ensures Parse("http://" + host + ("/" + rest)) == Some(Fields(false, "http", host, 80, "/" + rest))
    ensures Parse("https://" + host + ("/" + rest)) == Some(Fields(true, "https", host, 443, "/" + rest))
  {
    hide Parse;
    NoPortGiven(Fields(false, "ws", host, 80, "/" + rest));
    NoPortGiven(Fields(true, "wss", host, 443, "/" + rest));
    NoPortGiven(Fields(false, "http", host, 80, "/" + rest));
    NoPortGiven(Fields(true, "https", host, 443, "/" + rest));
    assert "ws" + "://" == "ws://" && "wss" + "://" == "wss://";
    assert "http" + "://" == "http://" && "https" + "://" == "https://";
  }

  lemma NoPortGiven(u: Fields)
    requires Parsed(u) && PlainHost(u.host) && u.port == if u.secure then 443 else 80
    ensures Parse(u.scheme + "://" + u.host + u.resource) == Some(u)
  {
    hide Parse;
    PlainRoundTrip(u);
    PrintFlat(u);
    assert u.scheme + "://" + u.host + "" == u.scheme + "://" + u.host;
  }

  lemma EmptyPort(secure: bool)
    ensures PortFromString("", secure) == Some(DefaultPort(secure))
  {
  }

  lemma {:induction false} ConstantString(h: string, c: char, k: nat)
    requires k < |h| && h[|h| - 1] == c
    requires forall i :: 0 <= i < |h| - 1 ==> h[i] == h[i + 1]
    ensures h[k] == c
    decreases |h| - k
  {
    if k < |h| - 1 { ConstantString(h, c, k + 1); }
  }

  // A host that is not plain is not found again.
  lemma OtherHostIsLost(s: string, n: nat, host: string, tail: string)
    requires n < |s| && s[n..] == host + tail && !PlainHost(host)
    requires tail != "" && (tail[0] == ':' || tail[0] == '/')
    ensures ParseHost(s, n).Some? ==> ParseHost(s, n).value.host != host
  {
    forall k | n <= k < |s|
      ensures s[k] == (host + tail)[k - n]
    {
      assert s[n..][k - n] == s[k];
    }
    var r := ParseHost(s, n);
    if r.Some? && r.value.host == host {
      if s[n] == '[' {
        var found := r.value.host;
        assert forall k :: 0 <= k < |found| ==> found[k] == s[n + 1 + k];
        if host != "" {
          assert found[|found| - 1] == tail[0];
          ConstantString(host, tail[0], 0);
        }
      } else {
        assert forall k :: 0 <= k < |host| ==> r.value.host[k] == s[n + k];
      }
    }
  }

  lemma OtherRoundTrip(u: Fields)
    requires Parsed(u) && !PlainHost(u.host)
    ensures Parse(Print(u)) != Some(u)
  {
    hide Print, Scheme, ParseHost, Find, PortFromString, PlainHost;
    SchemeOfPrint(u);
    var tail := PortPart(u) + u.resource;
    OtherHostIsLost(Print(u), |u.scheme| + 3, u.host, tail);
  }

  // Printing what was parsed and parsing it again gives the same fields exactly when the host
  // is plain.  Only a bracketed host can be anything else.
  lemma RoundTripIffPlainHost(s: string)
    requires Parse(s).Some?
    ensures var u := Parse(s).value; Parse(Print(u)) == Some(u) <==> PlainHost(u.host)
  {
    var u := Parse(s).value;
    ParseIsParsed(s);
    if PlainHost(u.host) { PlainRoundTrip(u); } else { OtherRoundTrip(u); }
  }

  // ---------------------------------------------------------------- the class

  class Uri {
    var scheme: string
    var host: string
    var resource: string
    var port: nat
    var secure: bool
    var valid: bool

    function Value(): (r: Option<Fields>)
      reads this
    {
      if valid then Some(Fields(secure, scheme, host, port, resource)) else None
    }

    constructor (uri: string)
      ensures Value() == Parse(uri)
    {
      scheme, host, resource, port, secure, valid := "", "", "", 0, false, false;
      new;
      hide Finish, ParseHost, Scheme;
      var found := Scheme(uri);
      if found.None? {
        return;
      }
      SchemeFits(uri);
      scheme := found.value;
      secure := Secure(scheme);
      var authority := ScanHost(uri, |scheme| + 3);
      if authority.None? {
        return;
      }
      host := authority.value.host;
      ReadPortAndResource(uri, authority.value);
    }

    // The rest of the constructor, after the host.
    method ReadPortAndResource(uri: string, a: Authority)
      requires a.next <= |uri| && !valid && secure == Secure(scheme) && host == a.host
      modifies this`port, this`resource, this`valid
      ensures Value() == Finish(uri, scheme, a)
    {
      var portString, it := ScanPort(uri, a);
      var number := PortFromString(portString, secure);
      if number.None? {
        return;
      }
      port := number.value;
      resource := "/";
      resource := resource + uri[it..];
      valid := true;
    }

    // The constructor's loops over the host.
    static method ScanHost(uri: string, start: nat) returns (r: Option<Authority>)
      requires start < |uri|
      ensures r == ParseHost(uri, start)
    {
      var it := start;
      if uri[it] == '[' {
        it := it + 1;
        var temp := it;
        while temp != |uri|
          invariant it <= temp <= |uri|
          invariant Find(uri, it, ']', ']') == Find(uri, temp, ']', ']')
          decreases |uri| - temp
        {
          if uri[temp] == ']' {
            break;
          }
          temp := temp + 1;
        }
        if temp == |uri| {
          return None;
        }
        var host := uri[it..temp];
        it := temp + 1;
        if it == |uri| {
          return Some(Authority(host, it, false));
        } else if uri[it] == '/' {
          return Some(Authority(host, it + 1, false));
        } else if uri[it] == ':' {
          return Some(Authority(host, it + 1, true));
        } else {
          return None;
        }
      }
      var host := "";
      var state := 0;
      while state == 0
        invariant start <= it <= |uri| && 0 <= state <= 2
        invariant state == 0 ==> host == uri[start..it] && Find(uri, start, '/', ':') == Find(uri, it, '/', ':')
        invariant state != 0 ==> ParseHost(uri, start) == Some(Authority(host, it, state == 1))
        decreases state == 0, |uri| - it
      {
        if it == |uri| {
          state := 2;
          break;
        } else if uri[it] == '/' {
          state := 2;
        } else if uri[it] == ':' {
          state := 1;
        } else {
          host := host + [uri[it]];
        }
        it := it + 1;
      }
      r := Some(Authority(host, it, state == 1));
    }

    // The constructor's loop over the port.
    static method ScanPort(uri: string, a: Authority) returns (port: string, it: nat)
      requires a.next <= |uri|
      ensures var p := if a.portFollows then Find(uri, a.next, '/', '/') else a.next;
        port == uri[a.next..p] && it == if a.portFollows && p < |uri| then p + 1 else p
    {
      it := a.next;
      port := "";
      var state := if a.portFollows then 1 else 2;
      while state == 1
        invariant a.next <= it <= |uri|
        invariant state == 1 ==>
                  a.portFollows && port == uri[a.next..it] && Find(uri, a.next, '/', '/') == Find(uri, it, '/', '/')
        invariant state != 1 ==> var p := if a.portFollows then Find(uri, a.next, '/', '/') else a.next;
          port == uri[a.next..p] && it == if a.portFollows && p < |uri| then p + 1 else p
        decreases state == 1, |uri| - it
      {
        if it == |uri| {
          break;
        } else if uri[it] == '/' {
          state := 3;
        } else {
          port := port + [uri[it]];
        }
        it := it + 1;
      }
    }

    method Str() returns (s: string)
      requires valid
      ensures s == Print(Value().value)
    {
      PrintFlat(Value().value);
      s := scheme + "://" + host;
      if port != DefaultPort(secure) {
        s := s + (":" + Decimal(port));
      } else {
        assert s + "" == s;
      }
      s := s + resource;
    }
  }
}
