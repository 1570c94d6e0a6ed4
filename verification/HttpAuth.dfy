/**
 * The token check of the loopback gateway: a request is split into its parts, the
 * credentials are taken out, and the rest is put together again.
 */
module HttpAuth {
  import opened Wire
  import opened Text
  import opened Utf8

  datatype Error =
    | MissingHeaderEnd | NotUtf8 | InvalidRequestLine | InvalidToken | InvalidHeader
    | InvalidHost | InvalidAuthorization | InvalidOrigin | Unauthorized

  /**
   * A request header as the gateway reads it, where CRLF and nothing else ends a line;
   * empty query pairs mean nothing.
   */
  datatype Request = Request(verb: string, path: string, pairs: seq<string>, fields: seq<string>)

  predicate IsAmp(c: char) { c == '&' }

  function PathAndQuery(target: string): (string, string) {
    match SplitOnce(target, '?')
    case Some(r) => r
    case None => (target, "")
  }

  function Parse(text: string): Option<Request> {
    var lines := Lines(text);
    var parts := Words(lines[0]);
    if |parts| != 3 || !("/" <= parts[1]) || parts[2] != "HTTP/1.1" then None
    else
      var (path, query) := PathAndQuery(parts[1]);
      Some(Request(parts[0], path, NonEmpty(Split(query, IsAmp)), NonEmpty(lines[1..])))
  }

  const TOKEN := "token="

  predicate IsTokenPair(pair: string) { TOKEN <= pair }
  predicate IsOtherPair(pair: string) { !IsTokenPair(pair) }

  predicate IsHost(line: string) { Named(line, "host") }
  predicate IsAuthorization(line: string) { Named(line, "authorization") }
  predicate IsOrigin(line: string) { Named(line, "origin") }
  predicate IsForwarded(line: string) { !IsAuthorization(line) && !IsOrigin(line) }

  predicate HostAllowed(value: string, port: nat) {
    || value == "127.0.0.1:" + Decimal(port)
    || value == "localhost:" + Decimal(port)
    || (port == 19223
        && (value == "wiredesk.localhost:19223" || value == "wiredesk.localhost" || value == "wiredesk.localhost:80"))
  }

  predicate OriginAllowed(value: string) {
    || value == "http://127.0.0.1:19223"
    || value == "http://localhost:19223"
    || value == "http://wiredesk.localhost"
    || value == "http://wiredesk.localhost:19223"
  }

  function Target(path: string, pairs: seq<string>): string {
    if pairs == [] then path else path + "?" + Join(pairs, '&')
  }

  function RequestLine(verb: string, target: string): string {
    verb + " " + target + " HTTP/1.1"
  }

  /** What is left of a request once the credentials are out. */
  function Stripped(q: Request): Request {
    q.(pairs := Filter(q.pairs, IsOtherPair), fields := Filter(q.fields, IsForwarded))
  }

  function Written(q: Request): string {
    Terminated([RequestLine(q.verb, Target(q.path, q.pairs))] + q.fields) + CRLF
  }

  /** What is wrong with a field, given whether an Authorization field came before it. */
  function FieldFault(repeated: bool, line: string, token: string, port: nat): Option<Error> {
    if !HasColon(line) then Some(InvalidHeader)
    else if IsHost(line) && !HostAllowed(Value(line), port) then Some(InvalidHost)
    else if IsAuthorization(line) && (repeated || Value(line) != "Bearer " + token)
    then Some(InvalidAuthorization)
    else if IsOrigin(line) && !OriginAllowed(Value(line)) then Some(InvalidOrigin)
    else None
  }

  function FirstFault(fields: seq<string>, token: string, port: nat): Option<Error> {
    if fields == [] then None
    else
      var before := fields[..|fields| - 1];
      match FirstFault(before, token, port)
      case Some(e) => Some(e)
      case None => FieldFault(Filter(before, IsAuthorization) != [], fields[|fields| - 1], token, port)
  }

  predicate TokenPairsFit(pairs: seq<string>, token: string) {
    Filter(pairs, IsTokenPair) == [] || Filter(pairs, IsTokenPair) == [TOKEN + token]
  }

  function Refusal(q: Request, token: string, port: nat): Option<Error> {
    if !TokenPairsFit(q.pairs, token) then Some(InvalidToken)
    else if FirstFault(q.fields, token, port).Some? then FirstFault(q.fields, token, port)
    else if |Filter(q.fields, IsHost)| != 1
         || (Filter(q.pairs, IsTokenPair) == [] && Filter(q.fields, IsAuthorization) == [])
    then Some(Unauthorized)
    else None
  }

  function Outcome(raw: Bytes, token: string, port: nat): Result<Bytes, Error> {
    match Find(raw, END)
    case None => Err(MissingHeaderEnd)
    case Some(i) =>
      match Decode(raw[..i + 4])
      case None => Err(NotUtf8)
      case Some(text) =>
        match Parse(text)
        case None => Err(InvalidRequestLine)
        case Some(q) =>
          match Refusal(q, token, port)
          case Some(e) => Err(e)
          case None => Ok(Encode(Written(Stripped(q))) + raw[i + 4..])
  }

  // ----- The loops

  lemma {:induction false} FaultSticks(fields: seq<string>, k: nat, token: string, port: nat)
    requires k <= |fields| && FirstFault(fields[..k], token, port).Some?
    ensures FirstFault(fields, token, port) == FirstFault(fields[..k], token, port)
  {
    if k == |fields| {
      assert fields[..k] == fields;
    } else {
      assert fields[..|fields| - 1][..k] == fields[..k];
      FaultSticks(fields[..|fields| - 1], k, token, port);
    }
  }

  /** How many of the first `k` fields are of a kind. */
  function Seen(fields: seq<string>, k: nat, kind: string -> bool): nat
    requires k <= |fields|
  {
    |Filter(fields[..k], kind)|
  }

  /** The first fault in the first `k` fields. */
  function FaultIn(fields: seq<string>, k: nat, token: string, port: nat): Option<Error>
    requires k <= |fields|
  {
    FirstFault(fields[..k], token, port)
  }

  lemma SeenStep(fields: seq<string>, k: nat, kind: string -> bool)
    requires k < |fields|
    ensures Seen(fields, k + 1, kind) == Seen(fields, k, kind) + if kind(fields[k]) then 1 else 0
  {
    FilterSnoc(fields, k, kind);
  }

  lemma FaultNow(fields: seq<string>, k: nat, token: string, port: nat)
    requires k < |fields| && FaultIn(fields, k, token, port) == None
    ensures var fault := FieldFault(Seen(fields, k, IsAuthorization) > 0, fields[k], token, port);
            && FaultIn(fields, k + 1, token, port) == fault
            && (fault.Some? ==> FirstFault(fields, token, port) == fault)
  {
    hide FieldFault;
    assert fields[..k + 1][..k] == fields[..k];
    if FaultIn(fields, k + 1, token, port).Some? {
      FaultSticks(fields, k + 1, token, port);
    }
  }

  lemma MisfitSticks(pairs: seq<string>, k: nat, token: string)
    requires k <= |pairs| && !TokenPairsFit(pairs[..k], token)
    ensures !TokenPairsFit(pairs, token)
  {
    assert pairs == pairs[..k] + pairs[k..];
    FilterConcat(pairs[..k], pairs[k..], IsTokenPair);
    var front, all := Filter(pairs[..k], IsTokenPair), Filter(pairs, IsTokenPair);
    if |all| == 1 { assert all[0] == front[0]; }
  }

  /** The query loop: `authorized` and `remaining`, or an invalid token. */
  method ReadPairs(pairs: seq<string>, token: string) returns (fits: bool, authorized: bool, remaining: seq<string>)
    ensures fits <==> TokenPairsFit(pairs, token)
    ensures fits ==> remaining == Filter(pairs, IsOtherPair) && (authorized <==> Filter(pairs, IsTokenPair) != [])
  {
    hide Filter;
    authorized, remaining := false, [];
    var k := 0;
    while k < |pairs|
      invariant 0 <= k <= |pairs|
      invariant remaining == Filter(pairs[..k], IsOtherPair)
      invariant Filter(pairs[..k], IsTokenPair) == if authorized then [TOKEN + token] else []
    {
      FilterSnoc(pairs, k, IsOtherPair);
      FilterSnoc(pairs, k, IsTokenPair);
      if TOKEN <= pairs[k] {
        var value := pairs[k][|TOKEN|..];
        assert pairs[k] == TOKEN + value;
        if authorized || value != token {
          MisfitSticks(pairs, k + 1, token);
          return false, authorized, remaining;
        }
        authorized := true;
      } else {
        remaining := remaining + [pairs[k]];
      }
      k := k + 1;
    }
    assert pairs[..k] == pairs;
    return true, authorized, remaining;
  }

  /** The text forwarded after the first `k` fields. */
  function Forwarded(start: string, fields: seq<string>, k: nat): string
    requires k <= |fields|
  {
    start + Terminated(Filter(fields[..k], IsForwarded))
  }

  lemma ForwardedStep(start: string, fields: seq<string>, k: nat)
    requires k < |fields|
    ensures Forwarded(start, fields, k + 1)
            == if IsForwarded(fields[k]) then Forwarded(start, fields, k) + fields[k] + CRLF
              else Forwarded(start, fields, k)
  {
    hide Filter, Terminated, IsForwarded;
    FilterSnoc(fields, k, IsForwarded);
    TerminatedSnoc(Filter(fields[..k], IsForwarded), fields[k]);
  }

  lemma OneName(line: string)
    ensures !(IsAuthorization(line) && IsOrigin(line)) && (IsHost(line) ==> IsForwarded(line))
  {
  }

  /** The three measures at either end of the fields. */
  lemma FieldsRead(start: string, fields: seq<string>, token: string, port: nat)
    ensures FaultIn(fields, 0, token, port) == None && Forwarded(start, fields, 0) == start
    ensures Seen(fields, 0, IsHost) == 0 && Seen(fields, 0, IsAuthorization) == 0
    ensures FaultIn(fields, |fields|, token, port) == FirstFault(fields, token, port)
    ensures Forwarded(start, fields, |fields|) == start + Terminated(Filter(fields, IsForwarded))
    ensures Seen(fields, |fields|, IsHost) == |Filter(fields, IsHost)|
    ensures Seen(fields, |fields|, IsAuthorization) == |Filter(fields, IsAuthorization)|
  {
    assert fields[..|fields|] == fields;
  }

  /** The header loop: `forwarded` grows by the lines kept, or the first fault is returned. */
  method ReadFields(start: string, fields: seq<string>, token: string, port: nat, tokenPair: bool)
    returns (fault: Option<Error>, forwarded: string, hosts: nat, authorized: bool)
    ensures fault == FirstFault(fields, token, port)
    ensures fault == None ==>
              && forwarded == start + Terminated(Filter(fields, IsForwarded))
              && hosts == |Filter(fields, IsHost)|
              && (authorized <==> tokenPair || Filter(fields, IsAuthorization) != [])
  {
    FieldsRead(start, fields, token, port);
    hide Forwarded, Filter, FirstFault, FaultIn, Seen, Terminated, Value, HostAllowed, OriginAllowed, HasColon, Named;
    forwarded, hosts, authorized := start, 0, tokenPair;
    var authHeaders := 0;
    var k := 0;
    while k < |fields|
      invariant 0 <= k <= |fields|
      invariant FaultIn(fields, k, token, port) == None
      invariant forwarded == Forwarded(start, fields, k)
      invariant hosts == Seen(fields, k, IsHost) && authHeaders == Seen(fields, k, IsAuthorization)
      invariant authorized <==> tokenPair || authHeaders > 0
    {
      var line := fields[k];
      FaultNow(fields, k, token, port);
      OneName(line);
      SeenStep(fields, k, IsHost);
      SeenStep(fields, k, IsAuthorization);
      ForwardedStep(start, fields, k);
      k := k + 1;
      if !HasColon(line) {
        return Some(InvalidHeader), forwarded, hosts, authorized;
      }
      var value := Value(line);
      if Named(line, "host") {
        hosts := hosts + 1;
        if !HostAllowed(value, port) {
          return Some(InvalidHost), forwarded, hosts, authorized;
        }
      }
      if Named(line, "authorization") {
        authHeaders := authHeaders + 1;
        if authHeaders > 1 || value != "Bearer " + token {
          return Some(InvalidAuthorization), forwarded, hosts, authorized;
        }
        authorized := true;
        continue;
      }
      if Named(line, "origin") {
        if !OriginAllowed(value) {
          return Some(InvalidOrigin), forwarded, hosts, authorized;
        }
        continue;
      }
      forwarded := forwarded + line + CRLF;
    }
    fault := None;
  }

  lemma TerminatedFirst(line: string, lines: seq<string>)
    ensures Terminated([line] + lines) == line + CRLF + Terminated(lines)
  {
  }

  method Authenticate(raw: Bytes, token: string, port: nat) returns (r: Result<Bytes, Error>)
    ensures r == Outcome(raw, token, port)
  {
    hide Find, Decode, Encode, Lines, Words, Split, NonEmpty, Filter, FirstFault, Terminated, PathAndQuery;
    var found := Find(raw, END);
    if found == None { return Err(MissingHeaderEnd); }
    var end := found.value + 4;
    var decoded := Decode(raw[..end]);
    if decoded == None { return Err(NotUtf8); }
    var lines := Lines(decoded.value);
    var parts := Words(lines[0]);
    if |parts| != 3 || !("/" <= parts[1]) || parts[2] != "HTTP/1.1" { return Err(InvalidRequestLine); }
    var (path, query) := PathAndQuery(parts[1]);
    var pairs := NonEmpty(Split(query, IsAmp));
    var fits, authorized, remaining := ReadPairs(pairs, token);
    if !fits { return Err(InvalidToken); }
    var forwarded := parts[0] + " " + Target(path, remaining) + " HTTP/1.1" + CRLF;
    var fault, hosts;
    fault, forwarded, hosts, authorized := ReadFields(forwarded, NonEmpty(lines[1..]), token, port, authorized);
    if fault.Some? { return Err(fault.value); }
    if hosts != 1 || !authorized { return Err(Unauthorized); }
    TerminatedFirst(RequestLine(parts[0], Target(path, remaining)), Filter(NonEmpty(lines[1..]), IsForwarded));
    return Ok(Encode(forwarded + CRLF) + raw[end..]);
  }

  // ----- What is admitted

  /** Who may pass, said of the request as a whole. */
  ghost predicate Admissible(q: Request, token: string, port: nat) {
    && (Filter(q.pairs, IsTokenPair) == [] || Filter(q.pairs, IsTokenPair) == [TOKEN + token])
    && (forall line :: line in q.fields ==> HasColon(line))
    && |Filter(q.fields, IsHost)| == 1
    && (forall line :: line in q.fields && IsHost(line) ==> HostAllowed(Value(line), port))
    && (forall line :: line in q.fields && IsOrigin(line) ==> OriginAllowed(Value(line)))
    && |Filter(q.fields, IsAuthorization)| <= 1
    && (forall line :: line in q.fields && IsAuthorization(line) ==> Value(line) == "Bearer " + token)
    && (Filter(q.pairs, IsTokenPair) != [] || Filter(q.fields, IsAuthorization) != [])
  }

  ghost predicate FieldsFit(fields: seq<string>, token: string, port: nat) {
    && (forall line :: line in fields ==> HasColon(line))
    && (forall line :: line in fields && IsHost(line) ==> HostAllowed(Value(line), port))
    && (forall line :: line in fields && IsOrigin(line) ==> OriginAllowed(Value(line)))
    && |Filter(fields, IsAuthorization)| <= 1
    && (forall line :: line in fields && IsAuthorization(line) ==> Value(line) == "Bearer " + token)
  }

  lemma FieldsFitSnoc(fields: seq<string>, line: string, token: string, port: nat)
    ensures FieldsFit(fields + [line], token, port)
            <==> FieldsFit(fields, token, port)
                 && FieldFault(Filter(fields, IsAuthorization) != [], line, token, port) == None
  {
    hide Value, HostAllowed, OriginAllowed, Named, HasColon;
    FilterConcat(fields, [line], IsAuthorization);
    assert Filter([line], IsAuthorization) == if IsAuthorization(line) then [line] else [];
    assert forall x :: x in fields + [line] <==> x in fields || x == line;
  }

  lemma {:induction false} FaultlessIff(fields: seq<string>, token: string, port: nat)
    ensures FirstFault(fields, token, port) == None <==> FieldsFit(fields, token, port)
  {
    hide FieldsFit, FieldFault;
    if fields != [] {
      var front, line := fields[..|fields| - 1], fields[|fields| - 1];
      FaultlessIff(front, token, port);
      FieldsFitSnoc(front, line, token, port);
      assert fields == front + [line];
    } else {
      NoFieldsFit(token, port);
    }
  }

  lemma NoFieldsFit(token: string, port: nat)
    ensures FieldsFit([], token, port)
  {
  }

  /** A request passes exactly if it is admissible. */
  lemma PassesIff(q: Request, token: string, port: nat)
    ensures Refusal(q, token, port) == None <==> Admissible(q, token, port)
  {
    FaultlessIff(q.fields, token, port);
  }

  // ----- What is forwarded

  /** What parsing yields, and writing may be given. */
  ghost predicate WellFormed(q: Request) {
    && q.verb != "" && Without(q.verb, IsSpace)
    && "/" <= q.path && '?' !in q.path && Without(q.path, IsSpace)
    && (forall pair :: pair in q.pairs ==> pair != "" && Without(pair, IsAmp) && Without(pair, IsSpace))
    && (forall line :: line in q.fields ==> line != "" && OneLine(line))
  }

  lemma PathAndQueryWithin(target: string)
    requires "/" <= target && Without(target, IsSpace)
    ensures var (path, query) := PathAndQuery(target);
            "/" <= path && '?' !in path && Without(path, IsSpace) && Without(query, IsSpace)
  {
    var (path, query) := PathAndQuery(target);
    if SplitOnce(target, '?').Some? {
      assert target == path + "?" + query;
      assert forall i :: 0 <= i < |path| ==> target[i] == path[i];
      assert forall i :: 0 <= i < |query| ==> query[i] == target[|path| + 1 + i];
      assert path != "" by { assert target[|path|] == '?'; }
    }
  }

  lemma ParsedIsWellFormed(text: string)
    requires Parse(text).Some?
    ensures WellFormed(Parse(text).value)
  {
    var lines := Lines(text);
    LinesAreSingle(text);
    var parts := Words(lines[0]);
    assert forall k :: 0 <= k < |parts| ==> Without(parts[k], IsSpace) && parts[k] != "";
    PathAndQueryWithin(parts[1]);
    SplitWithin(PathAndQuery(parts[1]).1, IsAmp, IsSpace);
  }

  lemma StrippedIsWellFormed(q: Request)
    requires WellFormed(q)
    ensures WellFormed(Stripped(q))
  {
  }

  lemma TargetParses(path: string, pairs: seq<string>)
    requires "/" <= path && '?' !in path && Without(path, IsSpace)
    requires forall pair :: pair in pairs ==> pair != "" && Without(pair, IsAmp) && Without(pair, IsSpace)
    ensures "/" <= Target(path, pairs) && Without(Target(path, pairs), IsSpace)
    ensures PathAndQuery(Target(path, pairs)).0 == path
    ensures NonEmpty(Split(PathAndQuery(Target(path, pairs)).1, IsAmp)) == pairs
  {
    if pairs == [] {
      SplitOnceNone(path, '?');
    } else {
      SplitOnceAt(path, '?', Join(pairs, '&'));
      JoinWithin(pairs, '&', IsSpace);
      SplitJoin(pairs, '&', IsAmp);
      FilterAll(pairs, Something);
    }
  }

  lemma RequestLineParses(verb: string, target: string)
    requires verb != "" && target != "" && Without(verb, IsSpace) && Without(target, IsSpace)
    ensures Words(RequestLine(verb, target)) == [verb, target, "HTTP/1.1"]
    ensures OneLine(RequestLine(verb, target)) && RequestLine(verb, target) != ""
  {
    var parts := [verb, target, "HTTP/1.1"];
    var line := RequestLine(verb, target);
    assert Join(parts, ' ') == line by {
      assert Join(parts[2..], ' ') == "HTTP/1.1";
      assert parts[1..][1..] == parts[2..];
    }
    SplitJoin(parts, ' ', IsSpace);
    FilterAll(parts, Something);
    NoReturnIn(line, verb, target);
  }

  lemma NoReturnIn(line: string, verb: string, target: string)
    requires line == RequestLine(verb, target) && Without(verb, IsSpace) && Without(target, IsSpace)
    ensures OneLine(line)
  {
    forall i | 0 <= i < |line| ensures line[i] != '\r' {
      if i < |verb| { assert line[i] == verb[i]; }
      else if |verb| < i < |verb| + 1 + |target| { assert line[i] == target[i - |verb| - 1]; }
    }
  }

  lemma HeaderLines(line: string, fields: seq<string>)
    requires line != "" && OneLine(line)
    requires forall field :: field in fields ==> field != "" && OneLine(field)
    ensures var text := Terminated([line] + fields) + CRLF;
            && Lines(text) == [line] + fields + ["", ""]
            && |text| >= 4 && Find(text, BLANK_LINE) == Some(|text| - 4)
  {
    hide Lines, OneLine, Terminated, Find;
    var lines := [line] + fields;
    forall k | 0 <= k < |lines| ensures OneLine(lines[k]) && lines[k] != "" {
      if k > 0 { assert lines[k] in fields; }
    }
    BlankLineEnds(lines);
    EndsInBreak(lines);
    LinesOfHeader(lines);
  }

  /** Parsing undoes writing, and the written request ends at its first blank line. */
  lemma WrittenParses(q: Request)
    requires WellFormed(q)
    ensures Parse(Written(q)) == Some(q)
    ensures |Written(q)| >= 4 && Find(Written(q), BLANK_LINE) == Some(|Written(q)| - 4)
  {
    hide Words, Split, Filter, PathAndQuery, Target, RequestLine, Lines, NonEmpty, Terminated, Find, OneLine;
    var target := Target(q.path, q.pairs);
    TargetParses(q.path, q.pairs);
    RequestLineParses(q.verb, target);
    HeaderLines(RequestLine(q.verb, target), q.fields);
    FieldsOf(RequestLine(q.verb, target), q.fields);
  }

  lemma FieldsOf(first: string, fields: seq<string>)
    requires forall line :: line in fields ==> line != ""
    ensures NonEmpty(([first] + fields + ["", ""])[1..]) == fields
  {
    assert ([first] + fields + ["", ""])[1..] == fields + ["", ""];
    FilterConcat(fields, ["", ""], Something);
    forall k | 0 <= k < |fields| ensures Something(fields[k]) {
      assert fields[k] in fields;
    }
    FilterAll(fields, Something);
  }

  /** The request as parsed from the start of a message. */
  function Received(raw: Bytes): Option<Request> {
    match Find(raw, END)
    case None => None
    case Some(i) =>
      match Decode(raw[..i + 4])
      case None => None
      case Some(text) => Parse(text)
  }

  function Body(raw: Bytes): Bytes
    requires Find(raw, END).Some?
  {
    raw[Find(raw, END).value + 4..]
  }

  /** A well-formed request and a body, sent as bytes, are received as they are. */
  lemma SentIsReceived(q: Request, body: Bytes)
    requires WellFormed(q)
    ensures Find(Encode(Written(q)) + body, END).Some?
    ensures Received(Encode(Written(q)) + body) == Some(q) && Body(Encode(Written(q)) + body) == body
  {
    hide Find, At, Parse, Written, Decode, Encode;
    var text := Written(q);
    WrittenParses(q);
    HeaderEndEncoded(text, body);
    var front := text[..|text| - 4];
    var i := |Encode(front)|;
    EndsInBlankLine(text);
    assert text == front + BLANK_LINE;
    EncodeConcat(front, BLANK_LINE);
    EncodedBlankLine();
    assert (Encode(text) + body)[..i + 4] == Encode(text);
    assert (Encode(text) + body)[i + 4..] == body;
    DecodeEncode(text);
  }

  /**
   * What is forwarded for an admissible request reads as the same request without its
   * credentials and Origin, followed by the same body.
   */
  lemma MeaningIsPreserved(raw: Bytes, q: Request, token: string, port: nat)
    requires Received(raw) == Some(q) && Admissible(q, token, port)
    ensures Outcome(raw, token, port).Ok?
    ensures var out := Outcome(raw, token, port).value;
            && Find(raw, END).Some? && Find(out, END).Some?
            && Received(out) == Some(Stripped(q))
            && Body(out) == Body(raw)
  {
    hide Find, Parse, Written, Decode, Encode, Refusal, Admissible, WellFormed;
    PassesIff(q, token, port);
    ParsedIsWellFormed(Decode(raw[..Find(raw, END).value + 4]).value);
    StrippedIsWellFormed(q);
    SentIsReceived(Stripped(q), Body(raw));
  }

  /** Every admissible request, sent as bytes with any body, is forwarded as its stripped self. */
  lemma AdmissibleIsForwarded(q: Request, body: Bytes, token: string, port: nat)
    requires WellFormed(q) && Admissible(q, token, port)
    ensures Outcome(Encode(Written(q)) + body, token, port) == Ok(Encode(Written(Stripped(q))) + body)
  {
    hide Find, Parse, Written, Decode, Encode, Refusal, Admissible, WellFormed;
    PassesIff(q, token, port);
    SentIsReceived(q, body);
  }

  // ----- Readers that let a bare newline end a line (section 2.2 of RFC 9112)

  /**
   * Such a reader sees in a written request the same lines as the gateway exactly if no
   * field holds a newline.
   */
  lemma ReadAlikeIff(q: Request)
    requires WellFormed(q)
    ensures TextLines(Written(q)) == [RequestLine(q.verb, Target(q.path, q.pairs))] + q.fields + [""]
            <==> forall line :: line in q.fields ==> Without(line, IsNewline)
  {
    var first := RequestLine(q.verb, Target(q.path, q.pairs));
    TargetParses(q.path, q.pairs);
    NewlineFreeFirst(q.verb, Target(q.path, q.pairs));
    SameLinesIff([first] + q.fields);
    hide TextLines, Terminated, Target, RequestLine;
    if forall line :: line in q.fields ==> Without(line, IsNewline) {
      assert forall k :: 0 <= k < |q.fields| ==> q.fields[k] in q.fields;
    }
    if forall k :: 0 <= k < |[first] + q.fields| ==> Without(([first] + q.fields)[k], IsNewline) {
      forall line | line in q.fields ensures Without(line, IsNewline) {
        var k :| 0 <= k < |q.fields| && q.fields[k] == line;
        assert ([first] + q.fields)[k + 1] == line;
      }
    }
  }

  lemma NewlineFreeFirst(verb: string, target: string)
    requires Without(verb, IsSpace) && Without(target, IsSpace)
    ensures Without(RequestLine(verb, target), IsNewline)
  {
    var line := RequestLine(verb, target);
    forall i | 0 <= i < |line| ensures !IsNewline(line[i]) {
      if i < |verb| { assert line[i] == verb[i]; }
      else if |verb| < i < |verb| + 1 + |target| { assert line[i] == target[i - |verb| - 1]; }
    }
  }

  /** A field that is none of the three checked ones may be added to an admissible request. */
  lemma OtherFieldIsAdmissible(q: Request, line: string, token: string, port: nat)
    requires Admissible(q, token, port) && HasColon(line) && IsForwarded(line) && !IsHost(line)
    ensures Admissible(q.(fields := q.fields + [line]), token, port)
    ensures line in Stripped(q.(fields := q.fields + [line])).fields
  {
    hide Filter, HasColon, IsForwarded, IsHost, IsAuthorization, IsOrigin, Value, HostAllowed, OriginAllowed;
    NamedOtherwise(line);
    FilterOneMore(q.fields, line, IsHost);
    FilterOneMore(q.fields, line, IsAuthorization);
    FilterOneMore(q.fields, line, IsForwarded);
    assert forall x :: x in q.fields + [line] <==> x in q.fields || x == line;
  }

  lemma FilterOneMore(lines: seq<string>, line: string, keep: string -> bool)
    ensures Filter(lines + [line], keep) == Filter(lines, keep) + (if keep(line) then [line] else [])
  {
    FilterConcat(lines, [line], keep);
    assert [line][1..] == [];
  }

  lemma NamedOtherwise(line: string)
    requires IsForwarded(line)
    ensures !IsAuthorization(line) && !IsOrigin(line)
  {
  }

  const FOLDED := "X: a\nHost: b"

  /**
   * So a bare newline passes: what is forwarded for an admissible request may be one that
   * such a reader takes to hold a second Host.
   */
  lemma BareNewlinePasses(q: Request, token: string, port: nat)
    requires WellFormed(q) && Admissible(q, token, port)
    ensures var more := q.(fields := q.fields + [FOLDED]);
            && WellFormed(more) && Admissible(more, token, port)
            && FOLDED in Stripped(more).fields
            && TextLines(Written(Stripped(more)))
               != [RequestLine(q.verb, Target(q.path, Stripped(q).pairs))] + Stripped(more).fields + [""]
  {
    hide *;
    var more := q.(fields := q.fields + [FOLDED]);
    FoldedIsX();
    OtherFieldIsAdmissible(q, FOLDED, token, port);
    FoldedIsOneLine();
    OneMoreFieldIsWellFormed(q, FOLDED);
    StrippedIsWellFormed(more);
    StrippedKeepsFirst(q, more);
    ReadAlikeIff(Stripped(more));
    FoldedHoldsNewline();
  }

  lemma OneMoreFieldIsWellFormed(q: Request, line: string)
    requires WellFormed(q) && OneLine(line) && line != ""
    ensures WellFormed(q.(fields := q.fields + [line]))
  {
    hide OneLine;
  }

  /** The fields do not touch the rest of a request. */
  lemma StrippedKeepsFirst(q: Request, more: Request)
    requires more == q.(fields := more.fields)
    ensures Stripped(more).verb == q.verb && Stripped(more).path == q.path
            && Stripped(more).pairs == Stripped(q).pairs
  {
  }

  lemma FoldedHoldsNewline()
    ensures !Without(FOLDED, IsNewline)
  {
    assert IsNewline(FOLDED[4]);
  }

  lemma FoldedIsX()
    ensures HasColon(FOLDED) && IsForwarded(FOLDED) && !IsHost(FOLDED)
  {
    SplitOnceAt("X", ':', " a\nHost: b");
    assert "X" + [':'] + " a\nHost: b" == FOLDED;
    assert Lower("X") == "x";
  }

  lemma FoldedIsOneLine()
    ensures OneLine(FOLDED) && FOLDED != ""
  {
    assert forall i :: 0 <= i < |FOLDED| ==> FOLDED[i] != '\r';
  }

  /** And exactly the admissible requests pass. */
  lemma PassesExactly(raw: Bytes, token: string, port: nat)
    ensures Outcome(raw, token, port).Ok?
            <==> Received(raw).Some? && Admissible(Received(raw).value, token, port)
  {
    if Received(raw).Some? { PassesIff(Received(raw).value, token, port); }
  }

  /** The credentials are gone: what was forwarded would itself be refused for lack of them. */
  lemma CredentialsAreGone(raw: Bytes, q: Request, token: string, port: nat)
    requires Received(raw) == Some(q) && Admissible(q, token, port)
    ensures Outcome(raw, token, port).Ok?
    ensures Outcome(Outcome(raw, token, port).value, token, port) == Err(Unauthorized)
  {
    hide Find, Parse, Written, Decode, Encode, Refusal, Admissible, Stripped;
    MeaningIsPreserved(raw, q, token, port);
    StrippedIsUnauthorized(q, token, port);
  }

  lemma StrippedIsUnauthorized(q: Request, token: string, port: nat)
    requires Admissible(q, token, port)
    ensures Refusal(Stripped(q), token, port) == Some(Unauthorized)
  {
    var t := Stripped(q);
    assert Filter(t.pairs, IsTokenPair) == [] by {
      var f := Filter(t.pairs, IsTokenPair);
      assert f != [] ==> IsTokenPair(f[0]) && f[0] in t.pairs && IsOtherPair(f[0]);
    }
    assert Filter(t.fields, IsAuthorization) == [] by {
      var f := Filter(t.fields, IsAuthorization);
      assert f != [] ==> IsAuthorization(f[0]) && f[0] in t.fields && IsForwarded(f[0]);
    }
    assert FieldsFit(t.fields, token, port);
    FaultlessIff(t.fields, token, port);
  }

  // ----- Field names in any case

  ghost predicate SpelledAlike(q: Request, r: Request) {
    q.verb == r.verb && q.path == r.path && q.pairs == r.pairs && AllRespelled(q.fields, r.fields)
  }

  lemma FieldsAlike(line: string, other: string)
    requires Respelled(line, other)
    ensures HasColon(line) == HasColon(other) && (HasColon(line) ==> Value(line) == Value(other))
    ensures IsHost(line) == IsHost(other) && IsOrigin(line) == IsOrigin(other)
    ensures IsAuthorization(line) == IsAuthorization(other) && IsForwarded(line) == IsForwarded(other)
  {
    hide Named, HasColon, Value, Respelled;
    RespelledAlike(line, other, "host");
    RespelledAlike(line, other, "origin");
    RespelledAlike(line, other, "authorization");
  }

  lemma FiltersAlike(fields: seq<string>, others: seq<string>)
    requires AllRespelled(fields, others)
    ensures AllRespelled(Filter(fields, IsForwarded), Filter(others, IsForwarded))
    ensures AllRespelled(Filter(fields, IsHost), Filter(others, IsHost))
    ensures AllRespelled(Filter(fields, IsAuthorization), Filter(others, IsAuthorization))
  {
    forall k | 0 <= k < |fields|
      ensures IsHost(fields[k]) == IsHost(others[k]) && IsAuthorization(fields[k]) == IsAuthorization(others[k])
      ensures IsForwarded(fields[k]) == IsForwarded(others[k])
    {
      FieldsAlike(fields[k], others[k]);
    }
    hide IsHost, IsAuthorization, IsForwarded, Filter, AllRespelled;
    FilterRespelled(fields, others, IsForwarded);
    FilterRespelled(fields, others, IsHost);
    FilterRespelled(fields, others, IsAuthorization);
  }

  lemma FieldsFitAlike(fields: seq<string>, others: seq<string>, token: string, port: nat)
    requires AllRespelled(fields, others) && FieldsFit(fields, token, port)
    ensures FieldsFit(others, token, port)
  {
    FiltersAlike(fields, others);
    hide IsHost, IsAuthorization, IsOrigin, IsForwarded, HasColon, Value, HostAllowed, OriginAllowed, Respelled;
    forall line | line in others
      ensures HasColon(line) && (IsHost(line) ==> HostAllowed(Value(line), port))
      ensures IsOrigin(line) ==> OriginAllowed(Value(line))
      ensures IsAuthorization(line) ==> Value(line) == "Bearer " + token
    {
      var k :| 0 <= k < |others| && others[k] == line;
      FieldsAlike(fields[k], others[k]);
      assert fields[k] in fields;
    }
  }

  lemma RespelledBack(fields: seq<string>, others: seq<string>)
    requires AllRespelled(fields, others)
    ensures AllRespelled(others, fields)
  {
    forall k | 0 <= k < |fields| ensures Respelled(others[k], fields[k]) {
      BackAgain(fields[k], others[k]);
    }
  }

  lemma BackAgain(line: string, other: string)
    requires Respelled(line, other)
    ensures Respelled(other, line)
  {
    if line != other {
      var name, otherName, value :| ':' !in name && SameName(name, otherName)
                                    && line == Field(name, value) && other == Field(otherName, value);
      SameNameHolds(name, otherName, ':');
      assert SameName(otherName, name) by {
        forall i | 0 <= i < |name| ensures SameLetter(otherName[i], name[i]) {
          assert SameLetter(name[i], otherName[i]);
        }
      }
    }
  }

  /** Respelling field names changes neither whether a request passes nor which fields are kept. */
  lemma SpellingDoesNotMatter(q: Request, r: Request, token: string, port: nat)
    requires SpelledAlike(q, r)
    ensures Admissible(q, token, port) <==> Admissible(r, token, port)
    ensures SpelledAlike(Stripped(q), Stripped(r))
  {
    hide IsHost, IsAuthorization, IsOrigin, IsForwarded, HasColon, Value, HostAllowed, OriginAllowed, Respelled,
      Filter;
    FiltersAlike(q.fields, r.fields);
    RespelledBack(q.fields, r.fields);
    if FieldsFit(q.fields, token, port) { FieldsFitAlike(q.fields, r.fields, token, port); }
    if FieldsFit(r.fields, token, port) { FieldsFitAlike(r.fields, q.fields, token, port); }
  }

  /** And a field is checked as the one it names, in whatever case that is written. */
  lemma FieldIsCheckedIff(name: string, value: string)
    requires ':' !in name
    ensures IsHost(Field(name, value)) <==> SameName(name, "host")
    ensures IsAuthorization(Field(name, value)) <==> SameName(name, "authorization")
    ensures IsOrigin(Field(name, value)) <==> SameName(name, "origin")
  {
    hide Named, HasColon, Value, SameName;
    NamedIff(name, value, "host");
    NamedIff(name, value, "authorization");
    NamedIff(name, value, "origin");
  }
}
