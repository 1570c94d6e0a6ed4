/** The string operations that the HTTP code takes from the standard library. */
module Text {
  import opened Wire

  predicate At<T(==)>(s: seq<T>, pattern: seq<T>, i: nat) {
    i + |pattern| <= |s| && forall k :: 0 <= k < |pattern| ==> pattern[k] == s[i + k]
  }

  lemma AtTail<T>(s: seq<T>, pattern: seq<T>)
    requires s != []
    ensures forall i: nat :: At(s[1..], pattern, i) ==> At(s, pattern, i + 1)
    ensures forall i: nat :: i > 0 && At(s, pattern, i) ==> At(s[1..], pattern, i - 1)
  {
  }

  /** Where `pattern` first occurs. */
  function Find<T(==)>(s: seq<T>, pattern: seq<T>): (r: Option<nat>)
    requires pattern != []
    ensures r.Some? ==> r.value + |pattern| <= |s|
  {
    if At(s, pattern, 0) then Some(0)
    else if s == [] then None
    else Later(Find(s[1..], pattern), 1)
  }

  lemma {:induction false} FindIsFirst<T>(s: seq<T>, pattern: seq<T>)
    requires pattern != []
    ensures Find(s, pattern).Some? ==> At(s, pattern, Find(s, pattern).value)
    ensures forall i: nat :: At(s, pattern, i) ==> Find(s, pattern).Some? && Find(s, pattern).value <= i
  {
    if s != [] && !At(s, pattern, 0) {
      AtTail(s, pattern);
      FindIsFirst(s[1..], pattern);
    }
  }

  function Later(r: Option<nat>, n: nat): Option<nat> {
    match r case None => None case Some(i) => Some(i + n)
  }

  lemma FindNext<T>(s: seq<T>, pattern: seq<T>)
    requires pattern != [] && s != [] && !At(s, pattern, 0)
    ensures Find(s, pattern) == Later(Find(s[1..], pattern), 1)
  {
  }

  lemma FoundAt<T>(s: seq<T>, pattern: seq<T>, i: nat)
    requires pattern != [] && At(s, pattern, i)
    requires forall j: nat :: j < i ==> !At(s, pattern, j)
    ensures Find(s, pattern) == Some(i)
  {
    hide Find, At;
    FindIsFirst(s, pattern);
  }

  /** A prefix holds the first occurrence as soon as it is long enough, and none before. */
  lemma FindInPrefix<T>(s: seq<T>, pattern: seq<T>, k: nat)
    requires pattern != [] && k <= |s| && Find(s, pattern).Some?
    ensures Find(s[..k], pattern) == if Find(s, pattern).value + |pattern| <= k then Find(s, pattern) else None
  {
    hide Find, At;
    FindIsFirst(s, pattern);
    FindIsFirst(s[..k], pattern);
    forall j: nat ensures At(s[..k], pattern, j) <==> At(s, pattern, j) && j + |pattern| <= k {
      AtInPrefix(s, pattern, k, j);
    }
  }

  lemma AtInPrefix<T>(s: seq<T>, pattern: seq<T>, k: nat, j: nat)
    requires k <= |s|
    ensures At(s[..k], pattern, j) <==> At(s, pattern, j) && j + |pattern| <= k
  {
  }

  /** The parts between the characters of a class: `str::split`. */
  function Split(t: string, sep: char -> bool): (parts: seq<string>)
    ensures |parts| >= 1
    ensures forall k :: 0 <= k < |parts| ==> Without(parts[k], sep)
  {
    if t == "" then [""]
    else
      var rest := Split(t[1..], sep);
      if sep(t[0]) then [""] + rest else [[t[0]] + rest[0]] + rest[1..]
  }

  predicate Without(t: string, sep: char -> bool) {
    forall i :: 0 <= i < |t| ==> !sep(t[i])
  }

  function Join(parts: seq<string>, c: char): string
    requires parts != []
  {
    if |parts| == 1 then parts[0] else parts[0] + [c] + Join(parts[1..], c)
  }

  lemma {:induction false} SplitOne(t: string, sep: char -> bool)
    requires Without(t, sep)
    ensures Split(t, sep) == [t]
  {
    if t != "" {
      assert Without(t[1..], sep) by { assert forall i :: 0 <= i < |t| - 1 ==> t[1..][i] == t[i + 1]; }
      SplitOne(t[1..], sep);
      assert [t[0]] + t[1..] == t;
    }
  }

  lemma {:induction false} SplitFirst(t: string, c: char, rest: string, sep: char -> bool)
    requires Without(t, sep) && sep(c)
    ensures Split(t + [c] + rest, sep) == [t] + Split(rest, sep)
  {
    var all := t + [c] + rest;
    if t == "" {
      assert all[1..] == rest;
    } else {
      assert Without(t[1..], sep) by { assert forall i :: 0 <= i < |t| - 1 ==> t[1..][i] == t[i + 1]; }
      SplitFirst(t[1..], c, rest, sep);
      assert all[1..] == t[1..] + [c] + rest && [t[0]] + t[1..] == t;
    }
  }

  /** Splitting undoes joining. */
  lemma {:induction false} SplitJoin(parts: seq<string>, c: char, sep: char -> bool)
    requires parts != [] && sep(c) && forall k :: 0 <= k < |parts| ==> Without(parts[k], sep)
    ensures Split(Join(parts, c), sep) == parts
  {
    if |parts| == 1 {
      SplitOne(parts[0], sep);
    } else {
      SplitJoin(parts[1..], c, sep);
      SplitFirst(parts[0], c, Join(parts[1..], c), sep);
    }
  }

  function Filter(parts: seq<string>, keep: string -> bool): (r: seq<string>)
    ensures |r| <= |parts| && forall k :: 0 <= k < |r| ==> keep(r[k]) && r[k] in parts
    ensures forall k :: 0 <= k < |parts| && keep(parts[k]) ==> parts[k] in r
  {
    if parts == [] then []
    else if keep(parts[0]) then [parts[0]] + Filter(parts[1..], keep)
    else Filter(parts[1..], keep)
  }

  lemma {:induction false} FilterConcat(a: seq<string>, b: seq<string>, keep: string -> bool)
    ensures Filter(a + b, keep) == Filter(a, keep) + Filter(b, keep)
  {
    if a == [] {
      assert a + b == b;
    } else {
      assert (a + b)[1..] == a[1..] + b;
      FilterConcat(a[1..], b, keep);
    }
  }

  lemma FilterSnoc(parts: seq<string>, k: nat, keep: string -> bool)
    requires k < |parts|
    ensures Filter(parts[..k + 1], keep)
            == if keep(parts[k]) then Filter(parts[..k], keep) + [parts[k]] else Filter(parts[..k], keep)
  {
    assert parts[..k + 1] == parts[..k] + [parts[k]];
    FilterConcat(parts[..k], [parts[k]], keep);
  }

  lemma {:induction false} FilterAll(parts: seq<string>, keep: string -> bool)
    requires forall k :: 0 <= k < |parts| ==> keep(parts[k])
    ensures Filter(parts, keep) == parts
  {
    if parts != [] { FilterAll(parts[1..], keep); }
  }

  predicate Something(t: string) { t != "" }

  function NonEmpty(parts: seq<string>): seq<string> { Filter(parts, Something) }

  lemma {:induction false} SplitWithin(t: string, sep: char -> bool, out: char -> bool)
    requires Without(t, out)
    ensures forall k :: 0 <= k < |Split(t, sep)| ==> Without(Split(t, sep)[k], out)
  {
    if t != "" {
      assert Without(t[1..], out) by { assert forall i :: 0 <= i < |t| - 1 ==> t[1..][i] == t[i + 1]; }
      SplitWithin(t[1..], sep, out);
    }
  }

  lemma {:induction false} JoinWithin(parts: seq<string>, c: char, out: char -> bool)
    requires parts != [] && !out(c) && forall k :: 0 <= k < |parts| ==> Without(parts[k], out)
    ensures Without(Join(parts, c), out)
  {
    if |parts| > 1 { JoinWithin(parts[1..], c, out); }
  }

  /** Unicode `White_Space`. */
  predicate IsSpace(c: char) {
    var n := c as int;
    9 <= n <= 13 || n == 0x20 || n == 0x85 || n == 0xA0 || n == 0x1680 || 0x2000 <= n <= 0x200A
    || n == 0x2028 || n == 0x2029 || n == 0x202F || n == 0x205F || n == 0x3000
  }

  /** `split_whitespace` */
  function Words(t: string): seq<string> { NonEmpty(Split(t, IsSpace)) }

  function TrimStart(t: string): string {
    if t != "" && IsSpace(t[0]) then TrimStart(t[1..]) else t
  }

  function TrimEnd(t: string): string {
    if t != "" && IsSpace(t[|t| - 1]) then TrimEnd(t[..|t| - 1]) else t
  }

  function Trim(t: string): string { TrimEnd(TrimStart(t)) }

  /** `split_once` */
  function SplitOnce(t: string, c: char): (r: Option<(string, string)>)
    ensures r.Some? ==> t == r.value.0 + [c] + r.value.1 && c !in r.value.0
    ensures r.None? ==> c !in t
  {
    if t == "" then None
    else if t[0] == c then Some(("", t[1..]))
    else match SplitOnce(t[1..], c)
      case None => None
      case Some(r) => Some(([t[0]] + r.0, r.1))
  }

  lemma {:induction false} SplitOnceAt(a: string, c: char, b: string)
    requires c !in a
    ensures SplitOnce(a + [c] + b, c) == Some((a, b))
  {
    var all := a + [c] + b;
    if a == "" {
      assert all[1..] == b;
    } else {
      assert all[1..] == a[1..] + [c] + b && [a[0]] + a[1..] == a;
      SplitOnceAt(a[1..], c, b);
    }
  }

  lemma {:induction false} SplitOnceNone(t: string, c: char)
    requires c !in t
    ensures SplitOnce(t, c) == None
  {
    if t != "" { SplitOnceNone(t[1..], c); }
  }

  function Lower(t: string): string {
    if t == "" then ""
    else [if 'A' <= t[0] <= 'Z' then (t[0] as int + 32) as char else t[0]] + Lower(t[1..])
  }

  // ----- Fields and numbers

  predicate HasColon(line: string) { SplitOnce(line, ':').Some? }

  predicate Named(line: string, name: string) {
    HasColon(line) && Lower(SplitOnce(line, ':').value.0) == name
  }

  function Value(line: string): string
    requires HasColon(line)
  {
    Trim(SplitOnce(line, ':').value.1)
  }

  // ----- Names are compared without regard to case

  /** Equal, or one ASCII letter in either case. */
  predicate SameLetter(a: char, b: char) {
    || a == b
    || ('A' <= a <= 'Z' && b as int == a as int + 32)
    || ('A' <= b <= 'Z' && a as int == b as int + 32)
  }

  predicate SameName(a: string, b: string) {
    |a| == |b| && forall i :: 0 <= i < |a| ==> SameLetter(a[i], b[i])
  }

  predicate NoCapital(t: string) {
    forall i :: 0 <= i < |t| ==> !('A' <= t[i] <= 'Z')
  }

  lemma {:induction false} LowerIff(a: string, b: string)
    requires NoCapital(b)
    ensures Lower(a) == b <==> SameName(a, b)
  {
    if a != "" && b != "" {
      LowerIff(a[1..], b[1..]);
      assert SameName(a, b) <==> SameLetter(a[0], b[0]) && SameName(a[1..], b[1..]) by { SameNameFront(a, b); }
      assert Lower(a) == b <==> Lower(a)[0] == b[0] && Lower(a)[1..] == b[1..];
    }
  }

  lemma SameNameFront(a: string, b: string)
    requires a != "" && b != ""
    ensures SameName(a, b) <==> SameLetter(a[0], b[0]) && SameName(a[1..], b[1..])
  {
    if SameLetter(a[0], b[0]) && SameName(a[1..], b[1..]) {
      forall i | 0 <= i < |a| ensures SameLetter(a[i], b[i]) {
        if i > 0 { assert SameLetter(a[1..][i - 1], b[1..][i - 1]); }
      }
    }
    if SameName(a, b) {
      forall i | 0 <= i < |a| - 1 ensures SameLetter(a[1..][i], b[1..][i]) {
        assert SameLetter(a[i + 1], b[i + 1]);
      }
    }
  }

  lemma {:induction false} SameNameLowersAlike(a: string, b: string)
    requires SameName(a, b)
    ensures Lower(a) == Lower(b)
  {
    if a != "" {
      SameNameFront(a, b);
      SameNameLowersAlike(a[1..], b[1..]);
    }
  }

  function Field(name: string, value: string): string { name + [':'] + value }

  /** A field has a name exactly if its own name is that, in whatever case. */
  lemma NamedIff(name: string, value: string, wanted: string)
    requires ':' !in name && NoCapital(wanted)
    ensures HasColon(Field(name, value)) && Value(Field(name, value)) == Trim(value)
    ensures Named(Field(name, value), wanted) <==> SameName(name, wanted)
  {
    hide SplitOnce, Lower, Trim, SameName;
    SplitOnceAt(name, ':', value);
    LowerIff(name, wanted);
  }

  /** The same field, its name in another case. */
  ghost predicate Respelled(line: string, other: string) {
    line == other || exists name, otherName, value ::
      ':' !in name && SameName(name, otherName) && line == Field(name, value) && other == Field(otherName, value)
  }

  lemma RespelledAlike(line: string, other: string, wanted: string)
    requires Respelled(line, other)
    ensures HasColon(line) == HasColon(other) && Named(line, wanted) == Named(other, wanted)
    ensures HasColon(line) ==> Value(line) == Value(other)
  {
    if line != other {
      var name, otherName, value :| ':' !in name && SameName(name, otherName)
                                    && line == Field(name, value) && other == Field(otherName, value);
      SameNameHolds(name, otherName, ':');
      hide SplitOnce, Lower, Trim;
      SplitOnceAt(name, ':', value);
      SplitOnceAt(otherName, ':', value);
      SameNameLowersAlike(name, otherName);
    }
  }

  lemma RespelledHolds(line: string, other: string, c: char)
    requires Respelled(line, other) && !('A' <= c <= 'Z') && !('a' <= c <= 'z')
    ensures c in line <==> c in other
  {
    if line != other {
      var name, otherName, value :| ':' !in name && SameName(name, otherName)
                                    && line == Field(name, value) && other == Field(otherName, value);
      SameNameHolds(name, otherName, c);
    }
  }

  ghost predicate AllRespelled(lines: seq<string>, others: seq<string>) {
    |lines| == |others| && forall k :: 0 <= k < |lines| ==> Respelled(lines[k], others[k])
  }

  lemma RespelledCons(line: string, other: string, lines: seq<string>, others: seq<string>)
    requires Respelled(line, other) && AllRespelled(lines, others)
    ensures AllRespelled([line] + lines, [other] + others)
  {
    hide Respelled;
  }

  lemma RespelledTail(lines: seq<string>, others: seq<string>)
    requires AllRespelled(lines, others) && lines != []
    ensures Respelled(lines[0], others[0]) && AllRespelled(lines[1..], others[1..])
  {
    hide Respelled;
  }

  /** A test that respelling does not change keeps the same lines. */
  lemma {:induction false} FilterRespelled(lines: seq<string>, others: seq<string>, keep: string -> bool)
    requires AllRespelled(lines, others)
    requires forall k :: 0 <= k < |lines| ==> keep(lines[k]) == keep(others[k])
    ensures AllRespelled(Filter(lines, keep), Filter(others, keep))
  {
    if lines != [] {
      assert forall k :: 0 <= k < |lines| - 1 ==> lines[1..][k] == lines[k + 1] && others[1..][k] == others[k + 1];
      RespelledTail(lines, others);
      hide AllRespelled, Respelled;
      FilterRespelled(lines[1..], others[1..], keep);
      RespelledCons(lines[0], others[0], Filter(lines[1..], keep), Filter(others[1..], keep));
    }
  }

  /** Neither spelling of a name holds a colon or a newline the other does not. */
  lemma SameNameHolds(a: string, b: string, c: char)
    requires SameName(a, b) && !('A' <= c <= 'Z') && !('a' <= c <= 'z')
    ensures c in a <==> c in b
  {
    if i :| 0 <= i < |a| && a[i] == c { assert SameLetter(a[i], b[i]); }
    if i :| 0 <= i < |b| && b[i] == c { assert SameLetter(a[i], b[i]); }
  }

  function Decimal(n: nat): (t: string)
    ensures t != ""
  {
    (if n < 10 then "" else Decimal(n / 10)) + [('0' as int + n % 10) as char]
  }

  predicate IsDigit(c: char) { '0' <= c <= '9' }

  /** The value of decimal digits, if there is nothing else. */
  function Digits(t: string): Option<nat> {
    if t == "" then Some(0)
    else match Digits(t[..|t| - 1])
      case Some(n) => if IsDigit(t[|t| - 1]) then Some(n * 10 + (t[|t| - 1] as int - '0' as int)) else None
      case None => None
  }

  lemma {:induction false} DigitsOfDecimal(n: nat)
    ensures Digits(Decimal(n)) == Some(n) && IsDigit(Decimal(n)[0])
  {
    var t := Decimal(n);
    if n >= 10 {
      DigitsOfDecimal(n / 10);
      assert t[..|t| - 1] == Decimal(n / 10);
    } else {
      assert t[..|t| - 1] == "";
    }
  }

  function Zeros(k: nat): string { if k == 0 then "" else Zeros(k - 1) + "0" }

  lemma {:induction false} ZerosAreZero(k: nat)
    ensures Digits(Zeros(k)) == Some(0) && |Zeros(k)| == k
  {
    if k > 0 {
      ZerosAreZero(k - 1);
      assert Zeros(k)[..|Zeros(k)| - 1] == Zeros(k - 1);
    }
  }

  lemma {:induction false} PaddedDigits(k: nat, n: nat)
    ensures Digits(Zeros(k) + Decimal(n)) == Some(n)
  {
    var t := Zeros(k) + Decimal(n);
    if n >= 10 {
      PaddedDigits(k, n / 10);
      assert t[..|t| - 1] == Zeros(k) + Decimal(n / 10);
    } else {
      ZerosAreZero(k);
      assert t[..|t| - 1] == Zeros(k);
    }
  }

  lemma {:induction false} DigitsArePadded(t: string) returns (k: nat)
    requires t != "" && Digits(t).Some?
    ensures t == Zeros(k) + Decimal(Digits(t).value)
  {
    var front, c := t[..|t| - 1], t[|t| - 1];
    var m, d := Digits(front).value, c as int - '0' as int;
    assert front + [c] == t;
    if front == "" {
      k := 0;
      assert Decimal(d) == [c];
    } else {
      var j := DigitsArePadded(front);
      if m == 0 {
        k := j + 1;
        assert Decimal(0) == "0" && Decimal(d) == [c];
        assert Zeros(j) + "0" == Zeros(k);
      } else {
        k := j;
        assert (m * 10 + d) / 10 == m && (m * 10 + d) % 10 == d;
        assert Decimal(m * 10 + d) == Decimal(m) + [c];
      }
    }
  }

  /** Digits have the value of which they are the decimal form, with any zeros in front. */
  lemma DigitsIff(t: string, n: nat)
    requires t != ""
    ensures Digits(t) == Some(n) <==> exists k: nat :: t == Zeros(k) + Decimal(n)
  {
    if Digits(t).Some? { var k := DigitsArePadded(t); }
    if k: nat :| t == Zeros(k) + Decimal(n) { PaddedDigits(k, n); }
  }

  lemma DecimalIsInjective(m: nat, n: nat)
    requires Decimal(m) == Decimal(n)
    ensures m == n
  {
    DigitsOfDecimal(m);
    DigitsOfDecimal(n);
  }

  predicate AllSpace(t: string) {
    forall i :: 0 <= i < |t| ==> IsSpace(t[i])
  }

  lemma {:induction false} TrimsStart(a: string, t: string)
    requires AllSpace(a) && (t != "" ==> !IsSpace(t[0]))
    ensures TrimStart(a + t) == t
  {
    if a == "" {
      assert a + t == t;
    } else {
      assert (a + t)[1..] == a[1..] + t;
      TrimsStart(a[1..], t);
    }
  }

  lemma {:induction false} TrimsEnd(t: string, b: string)
    requires AllSpace(b) && (t != "" ==> !IsSpace(t[|t| - 1]))
    ensures TrimEnd(t + b) == t
  {
    if b == "" {
      assert t + b == t;
    } else {
      assert (t + b)[..|t + b| - 1] == t + b[..|b| - 1];
      TrimsEnd(t, b[..|b| - 1]);
    }
  }

  /** Trimming takes the spaces at both ends, and those only. */
  lemma Trims(a: string, t: string, b: string)
    requires AllSpace(a) && AllSpace(b) && (t != "" ==> !IsSpace(t[0]) && !IsSpace(t[|t| - 1]))
    ensures Trim(a + t + b) == t
  {
    if t == "" {
      assert a + t + b == (a + b) + "" && AllSpace(a + b);
      TrimsStart(a + b, "");
      assert TrimEnd("") == "";
    } else {
      assert a + t + b == a + (t + b);
      TrimsStart(a, t + b);
      TrimsEnd(t, b);
    }
  }

  lemma TrimsSpace(t: string)
    requires t != "" && !IsSpace(t[0]) && !IsSpace(t[|t| - 1])
    ensures Trim([' '] + t) == t
  {
    Trims([' '], t, "");
    assert [' '] + t + "" == [' '] + t;
  }

  // ----- Lines

  const CRLF := "\r\n"
  const BLANK_LINE := "\r\n\r\n"

  predicate BreakAt(t: string, i: nat) {
    i + 1 < |t| && t[i] == '\r' && t[i + 1] == '\n'
  }

  /** `split("\r\n")` */
  function Lines(t: string): (lines: seq<string>)
    ensures |lines| >= 1
  {
    if t == "" then [""]
    else if BreakAt(t, 0) then [""] + Lines(t[2..])
    else
      var rest := Lines(t[1..]);
      [[t[0]] + rest[0]] + rest[1..]
  }

  ghost predicate OneLine(t: string) {
    forall i: nat :: !BreakAt(t, i)
  }

  /** Every line followed by its CRLF. */
  function Terminated(lines: seq<string>): string {
    if lines == [] then "" else lines[0] + CRLF + Terminated(lines[1..])
  }

  lemma {:induction false} LinesAreSingle(t: string)
    ensures forall k :: 0 <= k < |Lines(t)| ==> OneLine(Lines(t)[k])
    ensures Lines(t)[0] <= t
  {
    if t != "" {
      if BreakAt(t, 0) {
        LinesAreSingle(t[2..]);
      } else {
        LinesAreSingle(t[1..]);
        var first := Lines(t[1..])[0];
        forall i: nat ensures !BreakAt([t[0]] + first, i) {
          assert i > 0 ==> BreakAt([t[0]] + first, i) == BreakAt(first, i - 1);
        }
      }
    }
  }

  lemma BreaksAround(line: string, rest: string)
    requires OneLine(line)
    ensures forall i: nat :: i < |line| + 2 ==> (BreakAt(line + CRLF + rest, i) <==> i == |line|)
    ensures forall i: nat :: BreakAt(rest, i) <==> BreakAt(line + CRLF + rest, |line| + 2 + i)
  {
    var all := line + CRLF + rest;
    forall i: nat | i < |line| ensures !BreakAt(all, i) {
      assert !BreakAt(line, i);
    }
    forall i: nat ensures BreakAt(rest, i) <==> BreakAt(all, |line| + 2 + i) {
      assert i < |rest| ==> all[|line| + 2 + i] == rest[i];
      assert i + 1 < |rest| ==> all[|line| + 3 + i] == rest[i + 1];
    }
  }

  lemma {:induction false} FirstLine(line: string, rest: string)
    requires OneLine(line)
    ensures Lines(line + CRLF + rest) == [line] + Lines(rest)
  {
    var all := line + CRLF + rest;
    BreaksAround(line, rest);
    if line == "" {
      assert all[2..] == rest;
    } else {
      assert all[1..] == line[1..] + CRLF + rest && [line[0]] + line[1..] == line;
      assert OneLine(line[1..]) by { assert forall i: nat :: BreakAt(line[1..], i) ==> BreakAt(line, i + 1); }
      FirstLine(line[1..], rest);
    }
  }

  lemma {:induction false} TerminatedSnoc(lines: seq<string>, line: string)
    ensures Terminated(lines + [line]) == Terminated(lines) + line + CRLF
  {
    if lines == [] {
      assert Terminated([line]) == line + CRLF;
    } else {
      assert (lines + [line])[1..] == lines[1..] + [line];
      TerminatedSnoc(lines[1..], line);
    }
  }

  /** Splitting into lines undoes terminating them. */
  lemma {:induction false} LinesOfTerminated(lines: seq<string>)
    requires forall k :: 0 <= k < |lines| ==> OneLine(lines[k])
    ensures Lines(Terminated(lines)) == lines + [""]
  {
    if lines != [] {
      FirstLine(lines[0], Terminated(lines[1..]));
      LinesOfTerminated(lines[1..]);
    }
  }

  lemma NothingIsOneLine()
    ensures OneLine("")
  {
  }

  lemma LinesOfHeader(lines: seq<string>)
    requires forall k :: 0 <= k < |lines| ==> OneLine(lines[k])
    ensures Lines(Terminated(lines) + CRLF) == lines + ["", ""]
  {
    hide Lines, Terminated, OneLine;
    TerminatedSnoc(lines, "");
    NothingIsOneLine();
    assert Terminated(lines) + "" == Terminated(lines);
    LinesOfTerminated(lines + [""]);
    assert lines + [""] + [""] == lines + ["", ""];
  }

  lemma BlankLineAt(t: string, i: nat)
    ensures At(t, BLANK_LINE, i) <==> BreakAt(t, i) && BreakAt(t, i + 2)
  {
    if At(t, BLANK_LINE, i) {
      assert BLANK_LINE[0] == t[i] && BLANK_LINE[1] == t[i + 1] && BLANK_LINE[2] == t[i + 2]
        && BLANK_LINE[3] == t[i + 3];
    }
  }

  lemma {:induction false} TerminatedBreaks(lines: seq<string>, i: nat)
    requires forall k :: 0 <= k < |lines| ==> OneLine(lines[k]) && lines[k] != ""
    requires lines != [] && BreakAt(Terminated(lines) + CRLF, i)
    ensures || i == |Terminated(lines)|
            || (i > 0 && i + 2 <= |Terminated(lines)|
                && (BreakAt(Terminated(lines) + CRLF, i + 2) <==> i + 2 == |Terminated(lines)|))
  {
    var line, rest := lines[0], Terminated(lines[1..]) + CRLF;
    assert Terminated(lines) + CRLF == line + CRLF + rest;
    BreaksAround(line, rest);
    if i == |line| {
      if |lines| > 1 && BreakAt(rest, 0) { TerminatedBreaks(lines[1..], 0); }
      if |lines| == 1 { assert BreakAt(rest, 0); }
      assert BreakAt(rest, 0) <==> BreakAt(Terminated(lines) + CRLF, i + 2);
    } else {
      var j := i - |line| - 2;
      assert BreakAt(rest, j);
      if |lines| > 1 {
        TerminatedBreaks(lines[1..], j);
        assert BreakAt(rest, j + 2) <==> BreakAt(Terminated(lines) + CRLF, i + 2);
      }
    }
  }

  /** The first blank line after non-empty lines is the one that ends them. */
  lemma BlankLineEnds(lines: seq<string>)
    requires lines != [] && forall k :: 0 <= k < |lines| ==> OneLine(lines[k]) && lines[k] != ""
    ensures Find(Terminated(lines) + CRLF, BLANK_LINE) == Some(|Terminated(lines)| - 2)
  {
    hide Find, At, Terminated, BreakAt;
    var all := Terminated(lines) + CRLF;
    EndsInBreak(lines);
    var end := |Terminated(lines)| - 2;
    forall j: nat | j < end ensures !At(all, BLANK_LINE, j) {
      BlankLineAt(all, j);
      if BreakAt(all, j) { TerminatedBreaks(lines, j); }
    }
    BlankLineAt(all, end);
    FoundAt(all, BLANK_LINE, end);
  }

  lemma {:induction false} EndsInBreak(lines: seq<string>)
    requires lines != []
    ensures |Terminated(lines)| >= 2
    ensures BreakAt(Terminated(lines) + CRLF, |Terminated(lines)| - 2)
            && BreakAt(Terminated(lines) + CRLF, |Terminated(lines)|)
  {
    if |lines| > 1 {
      EndsInBreak(lines[1..]);
      var line, rest := lines[0], Terminated(lines[1..]) + CRLF;
      assert Terminated(lines) + CRLF == line + CRLF + rest;
    }
  }

  // ----- Lines that a bare newline may end too

  predicate IsNewline(c: char) { c == '\n' }

  function WithoutReturn(line: string): string {
    if line != "" && line[|line| - 1] == '\r' then line[..|line| - 1] else line
  }

  function WithoutReturns(lines: seq<string>): seq<string> {
    if lines == [] then [] else [WithoutReturn(lines[0])] + WithoutReturns(lines[1..])
  }

  /** `str::lines` */
  function TextLines(t: string): seq<string> {
    var parts := Split(t, IsNewline);
    WithoutReturns(if parts[|parts| - 1] == "" then parts[..|parts| - 1] else parts)
  }

  function WithReturns(lines: seq<string>): seq<string> {
    if lines == [] then [] else [lines[0] + "\r"] + WithReturns(lines[1..])
  }

  lemma {:induction false} SplitHeader(lines: seq<string>)
    requires forall k :: 0 <= k < |lines| ==> Without(lines[k], IsNewline)
    ensures Split(Terminated(lines) + CRLF, IsNewline) == WithReturns(lines) + ["\r", ""]
  {
    if lines == [] {
      SplitFirst("\r", '\n', "", IsNewline);
      assert Terminated(lines) + CRLF == "\r" + ['\n'] + "";
    } else {
      var rest := Terminated(lines[1..]) + CRLF;
      SplitHeader(lines[1..]);
      SplitFirst(lines[0] + "\r", '\n', rest, IsNewline);
      assert Terminated(lines) + CRLF == lines[0] + "\r" + ['\n'] + rest;
    }
  }

  lemma {:induction false} ReturnsRemoved(lines: seq<string>)
    ensures WithoutReturns(WithReturns(lines) + ["\r"]) == lines + [""]
  {
    var all := WithReturns(lines) + ["\r"];
    if lines != [] {
      ReturnsRemoved(lines[1..]);
      assert all[1..] == WithReturns(lines[1..]) + ["\r"];
    }
  }

  lemma LinesOfResponse(lines: seq<string>)
    requires forall k :: 0 <= k < |lines| ==> Without(lines[k], IsNewline)
    ensures TextLines(Terminated(lines) + CRLF) == lines + [""]
  {
    hide Split, WithReturns, WithoutReturns, Terminated;
    SplitHeader(lines);
    ReturnsRemoved(lines);
    var parts := WithReturns(lines) + ["\r", ""];
    assert parts[..|parts| - 1] == WithReturns(lines) + ["\r"];
  }

  /** Such lines hold no newline. */
  lemma {:induction false} NoNewlineLeft(lines: seq<string>)
    requires forall k :: 0 <= k < |lines| ==> Without(lines[k], IsNewline)
    ensures forall k :: 0 <= k < |WithoutReturns(lines)| ==> Without(WithoutReturns(lines)[k], IsNewline)
  {
    if lines != [] { NoNewlineLeft(lines[1..]); }
  }

  lemma NewlinesAreGone(t: string)
    ensures forall k :: 0 <= k < |TextLines(t)| ==> Without(TextLines(t)[k], IsNewline)
  {
    hide WithoutReturns, Split, Without;
    var parts := Split(t, IsNewline);
    NoNewlineLeft(if parts[|parts| - 1] == "" then parts[..|parts| - 1] else parts);
  }

  /** A reader that takes a bare newline for a line end sees the written lines exactly if none holds one. */
  lemma SameLinesIff(lines: seq<string>)
    ensures TextLines(Terminated(lines) + CRLF) == lines + [""]
            <==> forall k :: 0 <= k < |lines| ==> Without(lines[k], IsNewline)
  {
    hide TextLines, Terminated, Without;
    var seen := TextLines(Terminated(lines) + CRLF);
    NewlinesAreGone(Terminated(lines) + CRLF);
    if seen == lines + [""] {
      assert forall k :: 0 <= k < |lines| ==> lines[k] == seen[k];
    }
    if forall k :: 0 <= k < |lines| ==> Without(lines[k], IsNewline) { LinesOfResponse(lines); }
  }

  /** Each line with the end it has: a bare newline, or one after a return. */
  function Ended(lines: seq<string>, bare: seq<bool>): string
    requires |lines| == |bare|
  {
    if lines == [] then "" else lines[0] + (if bare[0] then "\n" else CRLF) + Ended(lines[1..], bare[1..])
  }

  /** What is left between the newlines. */
  function Raw(lines: seq<string>, bare: seq<bool>): seq<string>
    requires |lines| == |bare|
  {
    if lines == [] then [] else [lines[0] + if bare[0] then "" else "\r"] + Raw(lines[1..], bare[1..])
  }

  lemma {:induction false} SplitEnded(lines: seq<string>, bare: seq<bool>)
    requires |lines| == |bare| && forall k :: 0 <= k < |lines| ==> Without(lines[k], IsNewline)
    ensures Split(Ended(lines, bare), IsNewline) == Raw(lines, bare) + [""]
  {
    if lines != [] {
      var line := lines[0] + if bare[0] then "" else "\r";
      var rest := Ended(lines[1..], bare[1..]);
      SplitEnded(lines[1..], bare[1..]);
      SplitFirst(line, '\n', rest, IsNewline);
      assert Ended(lines, bare) == line + ['\n'] + rest;
    }
  }

  lemma {:induction false} RawWithoutReturns(lines: seq<string>, bare: seq<bool>)
    requires |lines| == |bare|
    requires forall k :: 0 <= k < |lines| && bare[k] && lines[k] != "" ==> lines[k][|lines[k]| - 1] != '\r'
    ensures WithoutReturns(Raw(lines, bare)) == lines
  {
    if lines != [] {
      RawWithoutReturns(lines[1..], bare[1..]);
      assert lines[0] + "" == lines[0];
    }
  }

  /** A reader of text lines takes either end, and of the line itself only the return before its newline. */
  lemma EitherEndIsTaken(lines: seq<string>, bare: seq<bool>)
    requires |lines| == |bare| && forall k :: 0 <= k < |lines| ==> Without(lines[k], IsNewline)
    requires forall k :: 0 <= k < |lines| && bare[k] && lines[k] != "" ==> lines[k][|lines[k]| - 1] != '\r'
    ensures TextLines(Ended(lines, bare)) == lines
  {
    hide Split, WithoutReturns, Raw, Ended;
    SplitEnded(lines, bare);
    RawWithoutReturns(lines, bare);
    var parts := Raw(lines, bare) + [""];
    assert parts[..|parts| - 1] == Raw(lines, bare);
  }
}
