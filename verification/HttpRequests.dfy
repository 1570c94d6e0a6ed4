/** Requests as browsers and scripts write them, and what the gateway makes of them. */
module HttpRequests {
  import opened Wire
  import opened Text
  import opened Utf8
  import opened HttpAuth

  // ----- Whom the gateway takes itself to be

  lemma SameSplit(a: string, b: string, c: string, d: string)
    requires ':' !in a && ':' !in c
    ensures a + [':'] + b == c + [':'] + d <==> a == c && b == d
  {
    SplitOnceAt(a, ':', b);
    SplitOnceAt(c, ':', d);
    hide SplitOnce;
  }

  lemma SameHostPort(host: string, n: nat, name: string, m: nat)
    requires ':' !in host && ':' !in name
    ensures host + [':'] + Decimal(n) == name + [':'] + Decimal(m) <==> host == name && n == m
  {
    SameSplit(host, Decimal(n), name, Decimal(m));
    if Decimal(n) == Decimal(m) { DecimalIsInjective(n, m); }
    hide Decimal;
  }

  lemma PortsWritten()
    ensures Decimal(80) == "80" && Decimal(19223) == "19223"
  {
    assert Decimal(8) == "8" && Decimal(1) == "1" && Decimal(19) == "19" && Decimal(192) == "192";
    assert Decimal(1922) == "1922";
  }

  /** The address a Host value names: a host, and a port unless it is left out. */
  function Address(host: string, port: Option<nat>): string {
    if port.Some? then host + [':'] + Decimal(port.value) else host
  }

  /**
   * A Host is accepted exactly if it names this machine by number or as `localhost`, with
   * the gateway's own port; or as `wiredesk.localhost` if that port is 19223, with that
   * port, with 80, or with none.
   */
  lemma HostAllowedIff(host: string, n: Option<nat>, port: nat)
    requires ':' !in host
    ensures HostAllowed(Address(host, n), port)
            <==> || (n == Some(port) && (host == "127.0.0.1" || host == "localhost"))
                 || (port == 19223 && host == "wiredesk.localhost"
                     && (n == None || n == Some(80) || n == Some(19223)))
  {
    PortsWritten();
    var wd := "wiredesk.localhost";
    assert "127.0.0.1:" + Decimal(port) == "127.0.0.1" + [':'] + Decimal(port);
    assert "localhost:" + Decimal(port) == "localhost" + [':'] + Decimal(port);
    assert "wiredesk.localhost:19223" == wd + [':'] + Decimal(19223)
      && "wiredesk.localhost:80" == wd + [':'] + Decimal(80);
    assert ':' !in "127.0.0.1" && ':' !in "localhost" && ':' !in wd;
    hide Decimal;
    if n.Some? {
      SameHostPort(host, n.value, "127.0.0.1", port);
      SameHostPort(host, n.value, "localhost", port);
      SameHostPort(host, n.value, wd, 19223);
      SameHostPort(host, n.value, wd, 80);
      assert (host + [':'] + Decimal(n.value))[|host|] == ':';
    } else {
      forall name: string, m: nat ensures host != name + [':'] + Decimal(m) {
        assert (name + [':'] + Decimal(m))[|name|] == ':';
      }
    }
  }

  lemma SameAfter(front: string, a: string, b: string)
    ensures front + a == front + b <==> a == b
  {
    assert (front + a)[|front|..] == a && (front + b)[|front|..] == b;
  }

  const HTTP := "http://"

  /** An Origin is accepted exactly if it is the plain page of a Host accepted at 19223, its port 80 left out. */
  lemma OriginAllowedIff(host: string)
    ensures OriginAllowed(HTTP + host) <==> HostAllowed(host, 19223) && host != "wiredesk.localhost:80"
  {
    var a, b, c, d := "127.0.0.1:19223", "localhost:19223", "wiredesk.localhost", "wiredesk.localhost:19223";
    PortsWritten();
    HostsAtPort(host);
    OriginsWritten(HTTP + host);
    hide OriginAllowed, HostAllowed, Decimal;
    SameAfter(HTTP, host, a);
    SameAfter(HTTP, host, b);
    SameAfter(HTTP, host, c);
    SameAfter(HTTP, host, d);
  }

  lemma HostsAtPort(host: string)
    ensures HostAllowed(host, 19223)
            <==> || host == "127.0.0.1:19223" || host == "localhost:19223"
                 || host == "wiredesk.localhost" || host == "wiredesk.localhost:19223"
                 || host == "wiredesk.localhost:80"
  {
    PortsWritten();
    hide Decimal;
    assert "127.0.0.1:" + "19223" == "127.0.0.1:19223" && "localhost:" + "19223" == "localhost:19223";
  }

  lemma OriginsWritten(origin: string)
    ensures OriginAllowed(origin)
            <==> || origin == HTTP + "127.0.0.1:19223" || origin == HTTP + "localhost:19223"
                 || origin == HTTP + "wiredesk.localhost" || origin == HTTP + "wiredesk.localhost:19223"
  {
    assert "http://127.0.0.1:19223" == HTTP + "127.0.0.1:19223"
      && "http://localhost:19223" == HTTP + "localhost:19223";
    assert "http://wiredesk.localhost" == HTTP + "wiredesk.localhost";
    assert "http://wiredesk.localhost:19223" == HTTP + "wiredesk.localhost:19223";
  }

  lemma OriginsArePlain(origin: string)
    requires OriginAllowed(origin)
    ensures HTTP <= origin
  {
  }

  // ----- The first line

  /** A first line is taken exactly if it has three words, a path in the middle and the version at the end. */
  lemma FirstLineIff(parts: seq<string>, fields: seq<string>)
    requires parts != [] && forall k :: 0 <= k < |parts| ==> parts[k] != "" && Without(parts[k], IsSpace)
    requires forall field :: field in fields ==> field != "" && OneLine(field)
    ensures Parse(Terminated([Join(parts, ' ')] + fields) + CRLF).Some?
            <==> |parts| == 3 && "/" <= parts[1] && parts[2] == "HTTP/1.1"
  {
    var line := Join(parts, ' ');
    SplitJoin(parts, ' ', IsSpace);
    FilterAll(parts, Something);
    JoinedIsOneLine(parts);
    HeaderLines(line, fields);
    hide Lines, Terminated, Words, PathAndQuery, OneLine, Find;
    assert Words(line) == parts by { WordsOf(line, parts); }
  }

  lemma WordsOf(line: string, parts: seq<string>)
    requires Split(line, IsSpace) == parts && Filter(parts, Something) == parts
    ensures Words(line) == parts
  {
  }

  lemma JoinedIsOneLine(parts: seq<string>)
    requires parts != [] && forall k :: 0 <= k < |parts| ==> parts[k] != "" && Without(parts[k], IsSpace)
    ensures OneLine(Join(parts, ' ')) && Join(parts, ' ') != ""
  {
    forall k | 0 <= k < |parts| ensures Without(parts[k], IsReturn) {
      assert forall i :: 0 <= i < |parts[k]| ==> !IsSpace(parts[k][i]);
    }
    JoinWithin(parts, ' ', IsReturn);
    var line := Join(parts, ' ');
    assert forall i :: 0 <= i < |line| ==> !IsReturn(line[i]);
  }

  predicate IsReturn(c: char) { c == '\r' }

  // ----- Whole requests

  function HostLine(port: nat): string { "Host: localhost:" + Decimal(port) }

  lemma {:induction false} DecimalIsDigits(n: nat)
    ensures forall i :: 0 <= i < |Decimal(n)| ==> IsDigit(Decimal(n)[i])
  {
    if n >= 10 { DecimalIsDigits(n / 10); }
  }

  lemma HostLineReads(port: nat)
    ensures HasColon(HostLine(port)) && Value(HostLine(port)) == "localhost:" + Decimal(port)
    ensures IsHost(HostLine(port)) && !IsAuthorization(HostLine(port)) && !IsOrigin(HostLine(port))
    ensures OneLine(HostLine(port)) && HostAllowed(Value(HostLine(port)), port)
  {
    var value := "localhost:" + Decimal(port);
    DecimalIsDigits(port);
    assert HostLine(port) == Field("Host", [' '] + value);
    assert SameLetter('H', 'h') && SameName("Host", "host");
    assert |"Host"| != |"authorization"| && |"Host"| != |"origin"|;
    assert forall i :: 0 <= i < |HostLine(port)| ==> HostLine(port)[i] != '\r';
    hide HasColon, Named, Decimal, SameName, Trim;
    TrimsSpace(value);
    FieldIsCheckedIff("Host", [' '] + value);
    NamedIff("Host", [' '] + value, "host");
  }

  lemma BearerIsOneLine(token: string)
    requires Without(token, IsSpace)
    ensures OneLine("Authorization: Bearer " + token)
  {
    var line := "Authorization: Bearer " + token;
    forall i | 0 <= i < |line| ensures line[i] != '\r' {
      if i >= 22 { assert line[i] == token[i - 22] && !IsSpace(token[i - 22]); }
    }
  }

  lemma BearerReads(token: string)
    requires token != "" && Without(token, IsSpace)
    ensures var line := "Authorization: Bearer " + token;
            && HasColon(line) && Value(line) == "Bearer " + token && OneLine(line)
            && IsAuthorization(line) && !IsHost(line) && !IsOrigin(line)
  {
    BearerIsOneLine(token);
    var value := "Bearer " + token;
    var line := "Authorization: Bearer " + token;
    assert line == Field("Authorization", [' '] + value);
    assert SameLetter('A', 'a') && SameName("Authorization", "authorization");
    assert |"Authorization"| != |"host"| && |"Authorization"| != |"origin"|;
    hide HasColon, Named, SameName, Trim, OneLine;
    TrimsSpace(value);
    FieldIsCheckedIff("Authorization", [' '] + value);
    NamedIff("Authorization", [' '] + value, "authorization");
  }

  lemma OneKept(line: string, keep: string -> bool)
    ensures Filter([line], keep) == if keep(line) then [line] else []
  {
    assert [line][1..] == [];
  }

  lemma TwoKept(line: string, other: string, keep: string -> bool)
    ensures Filter([line, other], keep) == (if keep(line) then [line] else []) + (if keep(other) then [other] else [])
  {
    OneKept(other, keep);
    assert [line, other][1..] == [other];
  }

  /** The page as the companion opens it: the token in the address. */
  function PageRequest(token: string, port: nat): Request {
    Request("GET", "/", ["token=" + token], [HostLine(port)])
  }

  function PlainRequest(port: nat): Request {
    Request("GET", "/", [], [HostLine(port)])
  }

  lemma PageIsAdmissible(token: string, port: nat)
    requires Without(token, IsSpace) && Without(token, IsAmp)
    ensures WellFormed(PageRequest(token, port)) && Admissible(PageRequest(token, port), token, port)
    ensures Stripped(PageRequest(token, port)) == PlainRequest(port)
  {
    var pair := "token=" + token;
    PairIsPlain(token);
    HostLineReads(port);
    hide HasColon, Value, IsHost, IsAuthorization, IsOrigin, HostAllowed, OriginAllowed, HostLine, OneLine;
    OneKept(pair, IsTokenPair);
    OneKept(pair, IsOtherPair);
    OneKept(HostLine(port), IsHost);
    OneKept(HostLine(port), IsAuthorization);
    OneKept(HostLine(port), IsForwarded);
    VerbIsPlain();
    assert HostLine(port) != "";
  }

  lemma VerbIsPlain()
    ensures Without("GET", IsSpace) && Without("/", IsSpace) && '?' !in "/" && "/" <= "/"
  {
  }

  lemma PairIsPlain(token: string)
    requires Without(token, IsSpace) && Without(token, IsAmp)
    ensures Without("token=" + token, IsSpace) && Without("token=" + token, IsAmp)
    ensures IsTokenPair("token=" + token) && !IsOtherPair("token=" + token)
  {
    var pair := "token=" + token;
    forall i | 0 <= i < |pair| ensures !IsSpace(pair[i]) && !IsAmp(pair[i]) {
      if i >= 6 { assert pair[i] == token[i - 6]; }
    }
  }

  /**
   * The page at its address with the right token is forwarded without it, whatever the body:
   * `GET /?token=.. HTTP/1.1` becomes `GET / HTTP/1.1`, and the line `Host: localhost:..` stays.
   */
  lemma PageIsForwarded(token: string, port: nat, body: Bytes)
    requires Without(token, IsSpace) && Without(token, IsAmp)
    ensures Outcome(Encode("GET /?token=" + token + " HTTP/1.1" + CRLF + HostLine(port) + CRLF + CRLF) + body,
                    token, port)
            == Ok(Encode("GET / HTTP/1.1" + CRLF + HostLine(port) + CRLF + CRLF) + body)
  {
    PageIsAdmissible(token, port);
    PageIsWritten(token, port);
    PlainIsWritten(port);
    hide *;
    AdmissibleIsForwarded(PageRequest(token, port), body, token, port);
  }

  lemma OneFieldWritten(verb: string, path: string, pairs: seq<string>, field: string)
    ensures Written(Request(verb, path, pairs, [field]))
            == RequestLine(verb, Target(path, pairs)) + CRLF + field + CRLF + CRLF
  {
    var first := RequestLine(verb, Target(path, pairs));
    hide RequestLine, Target;
    assert [first] + [field] == [first, field] && [first, field][1..] == [field] && [field][1..] == [];
    assert Terminated([field]) == field + CRLF + "" == field + CRLF;
  }

  lemma PageIsWritten(token: string, port: nat)
    ensures Written(PageRequest(token, port))
            == "GET /?token=" + token + " HTTP/1.1" + CRLF + HostLine(port) + CRLF + CRLF
  {
    OneFieldWritten("GET", "/", ["token=" + token], HostLine(port));
    PageLine(token);
    hide Written, HostLine, RequestLine, Target;
  }

  lemma PageLine(token: string)
    ensures RequestLine("GET", Target("/", ["token=" + token])) == "GET /?token=" + token + " HTTP/1.1"
  {
    assert Join(["token=" + token], '&') == "token=" + token;
    assert "GET" + " " + ("/" + "?" + "token=") == "GET /?token=";
  }

  lemma PlainIsWritten(port: nat)
    ensures Written(PlainRequest(port)) == "GET / HTTP/1.1" + CRLF + HostLine(port) + CRLF + CRLF
  {
    OneFieldWritten("GET", "/", [], HostLine(port));
    hide Written, HostLine;
    assert RequestLine("GET", Target("/", [])) == "GET / HTTP/1.1";
  }

  /** So is the same request with the token in an Authorization field. */
  function BearerRequest(token: string, port: nat): Request {
    Request("GET", "/", [], [HostLine(port), "Authorization: Bearer " + token])
  }

  lemma BearerIsAdmissible(token: string, port: nat)
    requires token != "" && Without(token, IsSpace)
    ensures WellFormed(BearerRequest(token, port)) && Admissible(BearerRequest(token, port), token, port)
    ensures Stripped(BearerRequest(token, port)) == PlainRequest(port)
  {
    var host, bearer := HostLine(port), "Authorization: Bearer " + token;
    HostLineReads(port);
    BearerReads(token);
    assert host != "" && bearer != "";
    VerbIsPlain();
    hide HasColon, Value, IsHost, IsAuthorization, IsOrigin, HostAllowed, OriginAllowed, HostLine, OneLine;
    TwoKept(host, bearer, IsHost);
    TwoKept(host, bearer, IsAuthorization);
    TwoKept(host, bearer, IsForwarded);
    assert [host] + [] == [host] && [] + [bearer] == [bearer];
  }

  lemma BearerIsForwarded(token: string, port: nat, body: Bytes)
    requires token != "" && Without(token, IsSpace)
    ensures Outcome(Encode("GET / HTTP/1.1" + CRLF + HostLine(port) + CRLF + ("Authorization: Bearer " + token)
                           + CRLF + CRLF)
                    + body, token, port)
            == Ok(Encode("GET / HTTP/1.1" + CRLF + HostLine(port) + CRLF + CRLF) + body)
  {
    BearerIsAdmissible(token, port);
    BearerIsWritten(token, port);
    PlainIsWritten(port);
    hide *;
    AdmissibleIsForwarded(BearerRequest(token, port), body, token, port);
  }

  lemma TwoFieldsWritten(verb: string, path: string, field: string, other: string)
    ensures Written(Request(verb, path, [], [field, other]))
            == RequestLine(verb, path) + CRLF + field + CRLF + other + CRLF + CRLF
  {
    var first := RequestLine(verb, path);
    hide RequestLine;
    assert [first] + [field, other] == [first, field, other] && [first, field, other][1..] == [field, other];
    assert [field, other][1..] == [other] && [other][1..] == [];
    assert Terminated([other]) == other + CRLF;
    assert Terminated([field, other]) == field + CRLF + (other + CRLF);
  }

  lemma BearerIsWritten(token: string, port: nat)
    ensures Written(BearerRequest(token, port))
            == "GET / HTTP/1.1" + CRLF + HostLine(port) + CRLF + ("Authorization: Bearer " + token) + CRLF + CRLF
  {
    TwoFieldsWritten("GET", "/", HostLine(port), "Authorization: Bearer " + token);
    hide Written, HostLine;
    assert RequestLine("GET", "/") == "GET / HTTP/1.1";
  }
}
