/** Reading the list of targets from a connection that hands out its bytes in any pieces. */
module HttpDiscovery {
  import opened Wire
  import opened Text
  import opened Utf8

  const MAX_HEADER: nat := 16 * 1024
  const BUFFER: nat := 1024
  const MAX_BODY: nat := 2 * 1024 * 1024

  /** First value that no longer fits the `usize` of a 64-bit machine. */
  const USIZE: nat := 0x1_0000_0000_0000_0000

  datatype Error =
    | HeaderEof | HeaderTooLarge | DiscoveryFailed | NotUtf8
    | InvalidFraming | InvalidLength | TooLargeOrMalformed | BodyEof

  // ----- What the header declares

  predicate IsContentLength(line: string) { Named(line, "content-length") }
  predicate IsTransferEncoding(line: string) { Named(line, "transfer-encoding") }

  /** `parse::<usize>`: digits with at most a plus before them, in range. */
  function ParseSize(t: string): Option<nat> {
    var digits := if "+" <= t then t[1..] else t;
    match Digits(digits)
    case Some(n) => if digits != "" && n < USIZE then Some(n) else None
    case None => None
  }

  const OK_STATUS := "HTTP/1.1 200"

  function Declared(header: Bytes): Result<nat, Error> {
    if !Begins(header, OK_STATUS) then Err(DiscoveryFailed)
    else match Decode(header)
      case None => Err(NotUtf8)
      case Some(text) =>
        var lengths := Filter(TextLines(text), IsContentLength);
        if |lengths| != 1 || Filter(TextLines(text), IsTransferEncoding) != [] then Err(InvalidFraming)
        else match ParseSize(Value(lengths[0]))
          case None => Err(InvalidLength)
          case Some(n) => Ok(n)
  }

  // ----- Reads

  /** The bytes the next read returns: as many as cut, at most `max`, never none before the end. */
  function Piece(cuts: seq<nat>, max: nat, left: nat): (n: nat)
    ensures n <= max && n <= left && (max > 0 && left > 0 ==> n > 0)
  {
    var wanted := if cuts == [] || cuts[0] == 0 || cuts[0] > max then max else cuts[0];
    if wanted > left then left else wanted
  }

  function CutsAfter(cuts: seq<nat>): seq<nat> { if cuts == [] then [] else cuts[1..] }

  /** How far the header loop has read when it stops. */
  function Landing(s: Bytes, cuts: seq<nat>, pos: nat): Result<nat, Error>
    requires pos <= |s|
    decreases |s| - pos
  {
    if pos == |s| then Err(HeaderEof)
    else
      var p := pos + Piece(cuts, BUFFER, |s| - pos);
      if p > MAX_HEADER then Err(HeaderTooLarge)
      else if Find(s[..p], END).Some? then Ok(p)
      else Landing(s, CutsAfter(cuts), p)
  }

  function Discover(s: Bytes, cuts: seq<nat>): Result<Bytes, Error> {
    match Landing(s, cuts, 0)
    case Err(e) => Err(e)
    case Ok(p) =>
      if p > |s| || Find(s[..p], END) == None then Err(HeaderEof)
      else
        var h := Find(s[..p], END).value + 4;
        match Declared(s[..h])
        case Err(e) => Err(e)
        case Ok(n) =>
          if n > MAX_BODY || p - h > n then Err(TooLargeOrMalformed)
          else if h + n > |s| then Err(BodyEof)
          else Ok(s[h..h + n])
  }

  lemma LandingStep(s: Bytes, cuts: seq<nat>, pos: nat)
    requires pos <= |s|
    ensures var p := pos + Piece(cuts, BUFFER, |s| - pos);
            Landing(s, cuts, pos)
            == if p == pos then Err(HeaderEof)
               else if p > MAX_HEADER then Err(HeaderTooLarge)
               else if Find(s[..p], END).Some? then Ok(p)
               else Landing(s, CutsAfter(cuts), p)
  {
  }

  lemma Joined(s: Bytes, i: nat, j: nat, k: nat)
    requires i <= j <= k <= |s|
    ensures s[i..j] + s[j..k] == s[i..k]
  {
  }

  method CopyIn(body: array<Byte>, at: nat, bytes: Bytes)
    requires at + |bytes| <= body.Length
    modifies body
    ensures body[..at + |bytes|] == old(body[..at]) + bytes
  {
    forall k | 0 <= k < |bytes| { body[at + k] := bytes[k]; }
    ghost var whole := old(body[..at]) + bytes;
    forall k | 0 <= k < at + |bytes| ensures body[k] == whole[k] {
      if k >= at { assert body[at + (k - at)] == bytes[k - at]; }
    }
  }

  class Stream {
    const all: Bytes
    var pos: nat
    var cuts: seq<nat>

    ghost predicate Valid() reads this { pos <= |all| }

    constructor (all: Bytes, cuts: seq<nat>)
      ensures Valid() && this.all == all && pos == 0 && this.cuts == cuts
    {
      this.all, this.pos, this.cuts := all, 0, cuts;
    }

    /** At the end the connection closes or times out; both end a reading loop. */
    method Read(max: nat) returns (got: Bytes)
      requires Valid()
      modifies this
      ensures Valid() && pos == old(pos) + |got| && got == all[old(pos)..pos]
      ensures |got| == Piece(old(cuts), max, |all| - old(pos)) && cuts == CutsAfter(old(cuts))
    {
      var n := Piece(cuts, max, |all| - pos);
      got := all[pos..pos + n];
      pos, cuts := pos + n, CutsAfter(cuts);
    }

    method ReadHeader() returns (r: Result<Bytes, Error>)
      requires Valid() && pos == 0
      modifies this
      ensures Valid()
      ensures match Landing(all, old(cuts), 0)
              case Err(e) => r == Err(e)
              case Ok(p) => pos == p && r == Ok(all[..p]) && Find(all[..p], END).Some?
    {
      hide Find, Landing;
      var data: Bytes := [];
      while true
        invariant Valid() && data == all[..pos]
        invariant Landing(all, old(cuts), 0) == Landing(all, cuts, pos)
        decreases |all| - pos
      {
        LandingStep(all, cuts, pos);
        ghost var from := pos;
        var got := Read(BUFFER);
        if |got| == 0 { return Err(HeaderEof); }
        Joined(all, 0, from, pos);
        data := data + got;
        if |data| > MAX_HEADER { return Err(HeaderTooLarge); }
        if Find(data, END).Some? { return Ok(data); }
      }
    }

    /** `read_exact` on the part of `body` from `from`. */
    method ReadExact(body: array<Byte>, from: nat) returns (ok: bool)
      requires Valid() && from <= body.Length
      modifies this, body
      ensures ok <==> body.Length - from <= |all| - old(pos)
      ensures ok ==> body[..] == old(body[..from]) + all[old(pos)..old(pos) + (body.Length - from)]
    {
      var filled := from;
      while filled < body.Length
        invariant Valid() && from <= filled <= body.Length
        invariant pos - old(pos) == filled - from
        invariant body[..filled] == old(body[..from]) + all[old(pos)..pos]
      {
        var got := Read(body.Length - filled);
        if |got| == 0 { return false; }
        CopyIn(body, filled, got);
        Joined(all, old(pos), pos - |got|, pos);
        filled := filled + |got|;
      }
      assert body[..filled] == body[..];
      return true;
    }

    method ReadDiscovery() returns (r: Result<Bytes, Error>)
      requires Valid() && pos == 0
      modifies this
      ensures r == Discover(all, old(cuts))
    {
      hide Find, Declared, Landing, Piece, CutsAfter;
      var header := ReadHeader();
      if header.Err? { return Err(header.error); }
      var raw := header.value;
      var start := Find(raw, END).value + 4;
      assert raw[..start] == all[..start];
      var length := ReadLength(raw);
      if length.Err? { return Err(length.error); }
      if length.value > MAX_BODY || |raw| - start > length.value { return Err(TooLargeOrMalformed); }
      var received := |raw| - start;
      var body := new Byte[length.value](i => if 0 <= i < received then raw[start + i] else 0);
      assert body[..received] == raw[start..] == all[start..|raw|];
      var ok := ReadExact(body, received);
      if !ok { return Err(BodyEof); }
      Joined(all, start, |raw|, start + length.value);
      return Ok(body[..]);
    }
  }

  /** The checks on the header, of a response read at least that far. */
  method ReadLength(raw: Bytes) returns (r: Result<nat, Error>)
    requires Find(raw, END).Some?
    ensures r == Declared(raw[..Find(raw, END).value + 4])
  {
    hide Find, Decode, Filter, TextLines, ParseSize, Value, Begins;
    StatusIsInHeader(raw);
    if !Begins(raw, OK_STATUS) { return Err(DiscoveryFailed); }
    var text := Decode(raw[..Find(raw, END).value + 4]);
    if text == None { return Err(NotUtf8); }
    var lines := TextLines(text.value);
    var lengths := Filter(lines, IsContentLength);
    if |lengths| != 1 || Filter(lines, IsTransferEncoding) != [] { return Err(InvalidFraming); }
    var length := ParseSize(Value(lengths[0]));
    if length == None { return Err(InvalidLength); }
    return Ok(length.value);
  }

  lemma StatusIsInHeader(raw: Bytes)
    requires Find(raw, END).Some?
    ensures Begins(raw, OK_STATUS) <==> Begins(raw[..Find(raw, END).value + 4], OK_STATUS)
  {
    hide Find;
    FindIsFirst(raw, END);
    assert raw[Find(raw, END).value] == END[0];
    assert forall k :: 0 <= k < |OK_STATUS| ==> OK_STATUS[k] as int != END[0];
  }

  // ----- Independence of the pieces

  /** Where the header ends, if it does. */
  ghost predicate HeaderEndsAt(s: Bytes, h: nat) {
    h >= 4 && Find(s, END) == Some(h - 4)
  }

  /** The farthest the header loop can have read when it finds the end of the header. */
  function Farthest(s: Bytes, h: nat): nat {
    if h + 1023 <= |s| then h + 1023 else |s|
  }

  lemma HeaderFoundFrom(s: Bytes, h: nat, p: nat)
    requires HeaderEndsAt(s, h) && p <= |s|
    ensures h <= |s|
    ensures Find(s[..p], END) == if h <= p then Some(h - 4) else None
  {
    FindInPrefix(s, END, p);
  }

  lemma {:induction false} LandingBounds(s: Bytes, cuts: seq<nat>, pos: nat, h: nat)
    requires HeaderEndsAt(s, h) && pos < h <= |s|
    ensures match Landing(s, cuts, pos)
            case Ok(p) => h <= p <= Farthest(s, h) && p <= MAX_HEADER
            case Err(e) => e == HeaderTooLarge && Farthest(s, h) > MAX_HEADER
    decreases |s| - pos
  {
    hide Find;
    var p := pos + Piece(cuts, BUFFER, |s| - pos);
    HeaderFoundFrom(s, h, p);
    if p < h && p <= MAX_HEADER { LandingBounds(s, CutsAfter(cuts), p, h); }
  }

  /** What each way of cutting yields once its landing is known. */
  lemma DiscoverFrom(s: Bytes, cuts: seq<nat>, h: nat, n: nat)
    requires HeaderEndsAt(s, h) && Declared(s[..h]) == Ok(n)
    ensures h <= |s|
    ensures match Landing(s, cuts, 0)
            case Err(_) => Discover(s, cuts) == Err(HeaderTooLarge) && Farthest(s, h) > MAX_HEADER
            case Ok(p) =>
              && h <= p <= Farthest(s, h) && p <= MAX_HEADER
              && Discover(s, cuts)
                 == if n > MAX_BODY || p - h > n then Err(TooLargeOrMalformed)
                    else if h + n > |s| then Err(BodyEof)
                    else Ok(s[h..h + n])
  {
    hide Find, Declared;
    HeaderFoundFrom(s, h, 0);
    LandingBounds(s, cuts, 0, h);
    if Landing(s, cuts, 0).Ok? {
      HeaderFoundFrom(s, h, Landing(s, cuts, 0).value);
      assert s[..Landing(s, cuts, 0).value][..h] == s[..h];
    }
  }

  /** No cutting yields other bytes than the body. */
  lemma NeverOtherBytes(s: Bytes, cuts: seq<nat>, h: nat, n: nat)
    requires HeaderEndsAt(s, h) && Declared(s[..h]) == Ok(n) && Discover(s, cuts).Ok?
    ensures h + n <= |s| && n <= MAX_BODY && Discover(s, cuts) == Ok(s[h..h + n])
  {
    hide Discover, Declared, Landing;
    DiscoverFrom(s, cuts, h, n);
  }

  function Ones(k: nat): seq<nat> { if k == 0 then [] else [1] + Ones(k - 1) }

  /** Byte by byte up to some point before the header ends. */
  lemma {:induction false} ByteByByte(s: Bytes, k: nat, rest: seq<nat>, pos: nat, h: nat)
    requires HeaderEndsAt(s, h) && h <= |s| && pos + k < h && pos + k <= MAX_HEADER
    ensures Landing(s, Ones(k) + rest, pos) == Landing(s, rest, pos + k)
    decreases k
  {
    hide Find;
    if k == 0 {
      assert Ones(k) + rest == rest;
    } else {
      HeaderFoundFrom(s, h, pos + 1);
      assert CutsAfter(Ones(k) + rest) == Ones(k - 1) + rest;
      ByteByByte(s, k - 1, rest, pos + 1, h);
    }
  }

  /** Some cutting reads `c` bytes across the end of the header. */
  lemma SomeLanding(s: Bytes, h: nat, c: nat) returns (cuts: seq<nat>)
    requires HeaderEndsAt(s, h) && h <= |s| && 1 <= c <= BUFFER
    requires h <= MAX_HEADER && h - 1 + c <= |s|
    ensures Landing(s, cuts, 0) == if h - 1 + c > MAX_HEADER then Err(HeaderTooLarge) else Ok(h - 1 + c)
  {
    hide Find;
    cuts := Ones(h - 1) + [c];
    ByteByByte(s, h - 1, [c], 0, h);
    HeaderFoundFrom(s, h, h - 1 + c);
  }

  /** When every cutting yields the body. */
  predicate Independent(s: Bytes, h: nat, n: nat) {
    && n <= 2_097_152 && h + n <= |s|
    && (|s| == h + n || n >= 1023)
    && Farthest(s, h) <= 16_384
  }

  /**
   * The result does not depend on how the bytes arrive exactly when the body is complete
   * and either nothing follows it or it is too long for one read to reach past it, and no
   * read that completes the header can pass the header limit.
   */
  lemma IndependentIff(s: Bytes, h: nat, n: nat)
    requires HeaderEndsAt(s, h) && Declared(s[..h]) == Ok(n)
    ensures Independent(s, h, n)
            <==> h + n <= |s| && forall cuts: seq<nat> :: Discover(s, cuts) == Ok(s[h..h + n])
  {
    hide Find, Declared, Landing, Discover;
    if Independent(s, h, n) {
      forall cuts: seq<nat> ensures Discover(s, cuts) == Ok(s[h..h + n]) { DiscoverFrom(s, cuts, h, n); }
    } else {
      var cuts := SomeFailure(s, h, n);
    }
  }

  /** Otherwise some cutting fails. */
  lemma SomeFailure(s: Bytes, h: nat, n: nat) returns (cuts: seq<nat>)
    requires HeaderEndsAt(s, h) && Declared(s[..h]) == Ok(n) && !Independent(s, h, n)
    ensures Discover(s, cuts).Err?
  {
    hide Find, Declared, Landing, Discover;
    HeaderFoundFrom(s, h, 0);
    cuts := [];
    if n <= MAX_BODY && h + n <= |s| && h <= MAX_HEADER {
      cuts := SomeLanding(s, h, Farthest(s, h) - h + 1);
    }
    DiscoverFrom(s, cuts, h, n);
  }

  /** Some cutting succeeds as soon as all is there and within the limits. */
  lemma SomeCuttingSucceedsIff(s: Bytes, h: nat, n: nat)
    requires HeaderEndsAt(s, h) && Declared(s[..h]) == Ok(n)
    ensures (exists cuts: seq<nat> :: Discover(s, cuts).Ok?)
            <==> n <= 2_097_152 && h + n <= |s| && h <= 16_384
  {
    hide Find, Declared, Landing, Discover;
    HeaderFoundFrom(s, h, 0);
    if n <= MAX_BODY && h + n <= |s| && h <= MAX_HEADER {
      var cuts := SomeLanding(s, h, 1);
      DiscoverFrom(s, cuts, h, n);
    }
    forall cuts: seq<nat> | Discover(s, cuts).Ok? ensures n <= MAX_BODY && h + n <= |s| && h <= MAX_HEADER {
      DiscoverFrom(s, cuts, h, n);
    }
  }

  // ----- Responses as they are written

  lemma ParseSizeOfDecimal(n: nat)
    requires n < USIZE
    ensures ParseSize(Decimal(n)) == Some(n)
  {
    DigitsOfDecimal(n);
  }

  /** Digits in range, with any zeros in front. */
  ghost predicate IsSize(t: string, n: nat) {
    n < 0x1_0000_0000_0000_0000 && exists k: nat :: t == Zeros(k) + Decimal(n)
  }

  /** A size is read off digits in range, with at most one plus in front. */
  lemma ParseSizeIff(t: string, n: nat)
    ensures ParseSize(t) == Some(n) <==> IsSize(t, n) || ("+" <= t && IsSize(t[1..], n))
  {
    UnsignedIff(if "+" <= t then t[1..] else t, n);
    if IsSize(t, n) {
      var k: nat :| t == Zeros(k) + Decimal(n);
      NoPlusInDigits(k, n);
    }
    hide Digits, IsSize;
  }

  lemma UnsignedIff(digits: string, n: nat)
    ensures IsSize(digits, n) <==> digits != "" && n < USIZE && Digits(digits) == Some(n)
  {
    hide Digits, Zeros, Decimal;
    if digits != "" { DigitsIff(digits, n); }
    if IsSize(digits, n) {
      var k: nat :| digits == Zeros(k) + Decimal(n);
      SomeDigit(k, n);
    }
  }

  lemma SomeDigit(k: nat, n: nat)
    ensures Zeros(k) + Decimal(n) != ""
  {
  }

  lemma NoPlusInDigits(k: nat, n: nat)
    ensures Zeros(k) + Decimal(n) != "" && !("+" <= Zeros(k) + Decimal(n))
  {
    var t := Zeros(k) + Decimal(n);
    PaddedDigits(k, n);
    if t[0] == '+' { NoValueFrom(t, |t|); }
  }

  lemma {:induction false} NoValueFrom(t: string, i: nat)
    requires 0 < i <= |t| && t[0] == '+'
    ensures Digits(t[..i]) == None && t[..|t|] == t
  {
    assert t[..i][..i - 1] == t[..i - 1];
    if i > 1 { NoValueFrom(t, i - 1); }
  }

  /** The status, one line that names a length that can be read, and none that names a transfer coding. */
  ghost predicate TextDeclares(text: string, n: nat) {
    && "HTTP/1.1 200" <= text
    && |Filter(TextLines(text), IsContentLength)| == 1 && Filter(TextLines(text), IsTransferEncoding) == []
    && ParseSize(Value(Filter(TextLines(text), IsContentLength)[0])) == Some(n)
  }

  /** A header declares a length exactly if it is the encoding of a text that does. */
  lemma DeclaredIff(header: Bytes, n: nat)
    ensures Declared(header) == Ok(n) <==> exists text: string :: header == Encode(text) && TextDeclares(text, n)
  {
    hide Begins, Encode, Decode, TextLines, Filter, ParseSize, Value;
    if Declared(header) == Ok(n) {
      var text := Decode(header).value;
      EncodeDecode(header);
      BeginsIff(text, OK_STATUS);
      assert header == Encode(text) && TextDeclares(text, n);
    }
    if text: string :| header == Encode(text) && TextDeclares(text, n) {
      DecodeEncode(text);
      BeginsIff(text, OK_STATUS);
    }
  }

  /** A header with one Content-Length and no Transfer-Encoding (section 6.3 of RFC 9112). */
  ghost predicate Frames(lines: seq<string>, n: nat) {
    && lines != [] && OK_STATUS <= lines[0]
    && (forall k :: 0 <= k < |lines| ==> Without(lines[k], IsNewline) && lines[k] != "")
    && |Filter(lines, IsContentLength)| == 1 && Value(Filter(lines, IsContentLength)[0]) == Decimal(n)
    && Filter(lines, IsTransferEncoding) == []
  }

  lemma NothingInBlankLine(lines: seq<string>)
    ensures Filter(lines + [""], IsContentLength) == Filter(lines, IsContentLength)
    ensures Filter(lines + [""], IsTransferEncoding) == Filter(lines, IsTransferEncoding)
  {
    FilterConcat(lines, [""], IsContentLength);
    FilterConcat(lines, [""], IsTransferEncoding);
  }

  lemma FramedTextDeclares(lines: seq<string>, n: nat)
    requires Frames(lines, n) && n < USIZE
    ensures TextDeclares(Terminated(lines) + CRLF, n)
  {
    var text := Terminated(lines) + CRLF;
    assert OK_STATUS <= text by { assert text == lines[0] + (CRLF + Terminated(lines[1..]) + CRLF); }
    hide Terminated, TextLines, Filter, ParseSize, Value, Decimal, Named;
    LinesOfResponse(lines);
    NothingInBlankLine(lines);
    ParseSizeOfDecimal(n);
  }

  lemma FramedHeaderDeclares(lines: seq<string>, n: nat)
    requires Frames(lines, n) && n < USIZE
    ensures Declared(Encode(Terminated(lines) + CRLF)) == Ok(n)
  {
    FramedTextDeclares(lines, n);
    hide *;
    DeclaredIff(Encode(Terminated(lines) + CRLF), n);
  }

  /** A response is framed alike however its field names are spelled. */
  lemma FramedInAnySpelling(lines: seq<string>, others: seq<string>, n: nat)
    requires Frames(lines, n) && AllRespelled(lines, others) && OK_STATUS <= others[0]
    ensures Frames(others, n)
  {
    forall k | 0 <= k < |lines|
      ensures IsContentLength(lines[k]) == IsContentLength(others[k])
      ensures IsTransferEncoding(lines[k]) == IsTransferEncoding(others[k]) && others[k] != ""
      ensures Without(others[k], IsNewline)
    {
      RespelledHolds(lines[k], others[k], '\n');
      assert '\n' !in lines[k];
      RespelledAlike(lines[k], others[k], "content-length");
      RespelledAlike(lines[k], others[k], "transfer-encoding");
    }
    hide Filter, HasColon, Named, Value, Respelled, SplitOnce, Lower;
    FilterRespelled(lines, others, IsContentLength);
    FilterRespelled(lines, others, IsTransferEncoding);
    RespelledAlike(Filter(lines, IsContentLength)[0], Filter(others, IsContentLength)[0], "content-length");
  }

  /** And a Content-Length is one in whatever case its name is written. */
  lemma LengthFieldIff(name: string, value: string)
    requires ':' !in name
    ensures IsContentLength(Field(name, value)) <==> SameName(name, "content-length")
    ensures IsTransferEncoding(Field(name, value)) <==> SameName(name, "transfer-encoding")
  {
    hide Named, HasColon, Value, SameName;
    NamedIff(name, value, "content-length");
    NamedIff(name, value, "transfer-encoding");
  }

  lemma FramedHeaderEnds(lines: seq<string>, body: Bytes, n: nat)
    requires Frames(lines, n)
    ensures HeaderEndsAt(Encode(Terminated(lines) + CRLF) + body, |Encode(Terminated(lines) + CRLF)|)
  {
    forall k | 0 <= k < |lines| ensures OneLine(lines[k]) && lines[k] != "" {
      assert forall i :: 0 <= i < |lines[k]| ==> !IsNewline(lines[k][i]);
    }
    var text := Terminated(lines) + CRLF;
    BlankLineEnds(lines);
    EndsInBreak(lines);
    hide Find, Terminated, Encode, Frames;
    BlankLineEncoded(text, body);
  }

  lemma BlankLineEncoded(text: string, body: Bytes)
    requires |text| >= 4 && Find(text, BLANK_LINE) == Some(|text| - 4)
    ensures HeaderEndsAt(Encode(text) + body, |Encode(text)|)
  {
    hide Find, Encode, At;
    HeaderEndEncoded(text, body);
    EndsInBlankLine(text);
    assert text == text[..|text| - 4] + BLANK_LINE;
    EncodeConcat(text[..|text| - 4], BLANK_LINE);
    EncodedBlankLine();
  }

  /**
   * A framed response with its body arrives as that body however it is cut, as long as its
   * header is a read short of the limit.
   */
  lemma AnyCuttingYieldsTheBody(lines: seq<string>, body: Bytes, cuts: seq<nat>)
    requires Frames(lines, |body|) && |body| <= MAX_BODY
    requires |Encode(Terminated(lines) + CRLF)| <= MAX_HEADER - (BUFFER - 1)
    ensures Discover(Encode(Terminated(lines) + CRLF) + body, cuts) == Ok(body)
  {
    hide Encode, Terminated, Discover, Declared, Frames, Find;
    var header := Encode(Terminated(lines) + CRLF);
    var s := header + body;
    FramedHeaderEnds(lines, body, |body|);
    FramedHeaderDeclares(lines, |body|);
    assert s[..|header|] == header && s[|header|..|header| + |body|] == body;
    IndependentIff(s, |header|, |body|);
  }

  // ----- A response that arrives in one way and not in another

  const STATUS_LINE := "HTTP/1.1 200 OK"
  const LENGTH_LINE := "content-length: 2"

  /** A response that declares two bytes, and a newline that follows them. */
  function Response(): Bytes {
    Encode(Terminated([STATUS_LINE, LENGTH_LINE]) + CRLF) + [91, 93, 10]
  }

  lemma {:induction false} AlreadyLower(t: string)
    requires forall i :: 0 <= i < |t| ==> !('A' <= t[i] <= 'Z')
    ensures Lower(t) == t
  {
    if t != "" { AlreadyLower(t[1..]); }
  }

  lemma NamedLine(name: string, value: string, other: string)
    requires ':' !in name && forall i :: 0 <= i < |name| ==> !('A' <= name[i] <= 'Z')
    ensures HasColon(name + [':'] + value) && Value(name + [':'] + value) == Trim(value)
    ensures Named(name + [':'] + value, other) <==> name == other
  {
    hide SplitOnce, Lower, Trim;
    SplitOnceAt(name, ':', value);
    AlreadyLower(name);
  }

  lemma LengthLine()
    ensures IsContentLength(LENGTH_LINE) && !IsTransferEncoding(LENGTH_LINE) && Value(LENGTH_LINE) == "2"
  {
    var name := "content-length";
    assert LENGTH_LINE == name + [':'] + ([' '] + "2");
    assert ':' !in name && forall i :: 0 <= i < |name| ==> !('A' <= name[i] <= 'Z');
    assert |name| != |"transfer-encoding"|;
    hide Named, HasColon, Value, Trim;
    TrimsSpace("2");
    NamedLine(name, [' '] + "2", "content-length");
    NamedLine(name, [' '] + "2", "transfer-encoding");
  }

  lemma StatusLine()
    ensures !HasColon(STATUS_LINE) && OK_STATUS <= STATUS_LINE
  {
    assert ':' !in STATUS_LINE;
    hide SplitOnce;
    SplitOnceNone(STATUS_LINE, ':');
  }

  lemma TwoLines(p: string, q: string, n: nat)
    requires OK_STATUS <= p && !HasColon(p) && Without(p, IsNewline) && Without(q, IsNewline) && q != ""
    requires IsContentLength(q) && !IsTransferEncoding(q) && Value(q) == Decimal(n)
    ensures Frames([p, q], n)
  {
    hide HasColon, Value, Decimal, Lower, SplitOnce;
    assert [p, q][1..] == [q];
    assert Filter([q], IsContentLength) == [q] && Filter([q], IsTransferEncoding) == [];
    assert Filter([p, q], IsContentLength) == [q] && Filter([p, q], IsTransferEncoding) == [];
  }

  lemma OneDigit(n: nat)
    requires n < 10
    ensures Decimal(n) == [('0' as int + n) as char]
  {
  }

  lemma ResponseFrames()
    ensures Frames([STATUS_LINE, LENGTH_LINE], 2)
  {
    assert Without(STATUS_LINE, IsNewline) && Without(LENGTH_LINE, IsNewline);
    hide HasColon, Value, IsContentLength, IsTransferEncoding, Frames, Decimal, Without;
    LengthLine();
    StatusLine();
    OneDigit(2);
    TwoLines(STATUS_LINE, LENGTH_LINE, 2);
  }

  lemma {:induction false} EncodedAtMost(t: string)
    ensures |Encode(t)| <= 4 * |t|
  {
    if t != "" { EncodedAtMost(t[1..]); }
  }

  lemma ResponseIsShort()
    ensures |Encode(Terminated([STATUS_LINE, LENGTH_LINE]) + CRLF)| <= 1024
  {
    assert [STATUS_LINE, LENGTH_LINE][1..] == [LENGTH_LINE] && [LENGTH_LINE][1..] == [];
    assert |Terminated([LENGTH_LINE])| == 19;
    assert |Terminated([STATUS_LINE, LENGTH_LINE]) + CRLF| == 38;
    hide Terminated, Encode;
    EncodedAtMost(Terminated([STATUS_LINE, LENGTH_LINE]) + CRLF);
  }

  /** The same bytes yield the body if the newline comes late, and an error if it comes with the body. */
  lemma ResponseMayFail() returns (a: seq<nat>, b: seq<nat>)
    ensures Discover(Response(), a) == Ok([91, 93]) && Discover(Response(), b).Err?
  {
    var lines := [STATUS_LINE, LENGTH_LINE];
    var header := Encode(Terminated(lines) + CRLF);
    assert Response() == header + [91, 93, 10];
    hide Response, Encode, Terminated, Frames, Declared, Discover, Find;
    ResponseFrames();
    ResponseIsShort();
    FramedHeaderDeclares(lines, 2);
    FramedHeaderEnds(lines, [91, 93, 10], 2);
    a, b := BothHappen(header, [91, 93, 10], 2);
    assert [91, 93, 10][..2] == [91, 93];
  }

  lemma BothHappen(header: Bytes, rest: Bytes, n: nat) returns (a: seq<nat>, b: seq<nat>)
    requires HeaderEndsAt(header + rest, |header|) && Declared(header) == Ok(n)
    requires |header| <= MAX_HEADER && n < |rest| && n < BUFFER - 1
    ensures Discover(header + rest, a) == Ok(rest[..n]) && Discover(header + rest, b).Err?
  {
    var s, h := header + rest, |header|;
    assert s[..h] == header && s[h..h + n] == rest[..n];
    hide Declared, Find, Discover;
    b := SomeFailure(s, h, n);
    SomeCuttingSucceedsIff(s, h, n);
    a :| Discover(s, a).Ok?;
    NeverOtherBytes(s, a, h, n);
  }
}
