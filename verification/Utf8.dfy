/** UTF-8 as `str::from_utf8` and `String::into_bytes` read and write it. */
module Utf8 {
  import opened Wire
  import opened Text

  function EncodeChar(c: char): (r: Bytes)
    ensures 1 <= |r| <= 4
    ensures (c as int < 128 && r == [c as int]) || (c as int >= 128 && forall k :: 0 <= k < |r| ==> r[k] >= 128)
  {
    var n0 := c as int;
    var n1 := n0 / 64;
    var n2 := n1 / 64;
    if n0 < 0x80 then [n0]
    else if n0 < 0x800 then [0xC0 + n1, Tail(n0)]
    else if n0 < 0x1_0000 then [0xE0 + n2, Tail(n1), Tail(n0)]
    else [0xF0 + n2 / 64, Tail(n2), Tail(n1), Tail(n0)]
  }

  /** A continuation byte holds the low six bits. */
  function Tail(n: nat): Byte { 0x80 + n % 64 }

  function Encode(t: string): Bytes {
    if t == "" then [] else EncodeChar(t[0]) + Encode(t[1..])
  }

  predicate IsTail(b: Byte) { 0x80 <= b < 0xC0 }

  /** Six more bits. */
  function Shifted(n: int, tail: Byte): int { n * 64 + (tail as int - 0x80) }

  /** The first character and its length, or `None` if the bytes do not start with one. */
  function DecodeChar(b: Bytes): (r: Option<(char, nat)>)
    requires b != []
    ensures r.Some? ==> 1 <= r.value.1 <= |b|
  {
    var lead := b[0] as int;
    if lead < 0x80 then Some((lead as char, 1))
    else if 0xC2 <= lead < 0xE0 && |b| >= 2 && IsTail(b[1]) then
      Some((Shifted(lead - 0xC0, b[1]) as char, 2))
    else if 0xE0 <= lead < 0xF0 && |b| >= 3 && IsTail(b[1]) && IsTail(b[2]) then
      var n := Shifted(Shifted(lead - 0xE0, b[1]), b[2]);
      if 0x800 <= n < 0xD800 || 0xE000 <= n then Some((n as char, 3)) else None
    else if 0xF0 <= lead < 0xF5 && |b| >= 4 && IsTail(b[1]) && IsTail(b[2]) && IsTail(b[3]) then
      var n := Shifted(Shifted(Shifted(lead - 0xF0, b[1]), b[2]), b[3]);
      if 0x1_0000 <= n <= 0x10_FFFF then Some((n as char, 4)) else None
    else None
  }

  function Decode(b: Bytes): Option<string> {
    if b == [] then Some("")
    else match DecodeChar(b)
      case None => None
      case Some((c, n)) =>
        match Decode(b[n..])
        case None => None
        case Some(t) => Some([c] + t)
  }

  lemma ShiftTail(n: nat, tail: Byte)
    requires IsTail(tail)
    ensures 64 * n <= Shifted(n, tail) <= 64 * n + 63
    ensures Shifted(n, tail) / 64 == n && Tail(Shifted(n, tail)) == tail
    ensures Shifted(n / 64, Tail(n)) == n && IsTail(Tail(n))
  {
  }

  lemma DecodeEncodedChar(c: char, rest: Bytes)
    ensures DecodeChar(EncodeChar(c) + rest) == Some((c, |EncodeChar(c)|))
  {
    hide Tail, Shifted;
    var b := EncodeChar(c) + rest;
    var n0 := c as int;
    var n1 := n0 / 64;
    var n2 := n1 / 64;
    ShiftTail(n0, 0x80);
    if n0 >= 0x1_0000 {
      ShiftTail(n1, 0x80);
      ShiftTail(n2, 0x80);
      assert b[0] == 0xF0 + n2 / 64 && b[1] == Tail(n2) && b[2] == Tail(n1) && b[3] == Tail(n0);
    } else if n0 >= 0x800 {
      ShiftTail(n1, 0x80);
      assert b[0] == 0xE0 + n2 && b[1] == Tail(n1) && b[2] == Tail(n0);
    } else if n0 >= 0x80 {
      assert b[0] == 0xC0 + n1 && b[1] == Tail(n0);
    }
  }

  lemma EncodeDecodedChar(b: Bytes)
    requires b != [] && DecodeChar(b).Some?
    ensures EncodeChar(DecodeChar(b).value.0) == b[..DecodeChar(b).value.1]
  {
    hide Tail, Shifted;
    var lead := b[0] as int;
    if lead < 0x80 {
    } else if lead < 0xE0 {
      var v1 := Shifted(lead - 0xC0, b[1]);
      ShiftTail(lead - 0xC0, b[1]);
      assert b[..2] == [b[0], b[1]];
      assert EncodeChar(v1 as char) == [b[0], b[1]];
    } else if lead < 0xF0 {
      var v1 := Shifted(lead - 0xE0, b[1]);
      var v2 := Shifted(v1, b[2]);
      ShiftTail(lead - 0xE0, b[1]);
      ShiftTail(v1, b[2]);
      assert b[..3] == [b[0], b[1], b[2]];
      assert EncodeChar(v2 as char) == [b[0], b[1], b[2]];
    } else {
      var v0 := lead - 0xF0;
      var v1 := Shifted(v0, b[1]);
      var v2 := Shifted(v1, b[2]);
      var v3 := Shifted(v2, b[3]);
      ShiftTail(v0, b[1]);
      ShiftTail(v1, b[2]);
      ShiftTail(v2, b[3]);
      assert b[..4] == [b[0], b[1], b[2], b[3]];
      assert EncodeChar(v3 as char) == [b[0], b[1], b[2], b[3]];
    }
  }

  /** Decoding undoes encoding. */
  lemma {:induction false} DecodeEncode(t: string)
    ensures Decode(Encode(t)) == Some(t)
  {
    if t != "" {
      DecodeEncodedChar(t[0], Encode(t[1..]));
      DecodeEncode(t[1..]);
      assert Encode(t)[|EncodeChar(t[0])|..] == Encode(t[1..]);
      assert [t[0]] + t[1..] == t;
    }
  }

  lemma EncodeOneMore(c: char, rest: string)
    ensures Encode([c] + rest) == EncodeChar(c) + Encode(rest)
  {
    hide EncodeChar;
    assert ([c] + rest)[1..] == rest;
  }

  lemma DecodedFront(b: Bytes)
    requires b != [] && Decode(b).Some?
    ensures DecodeChar(b).Some?
    ensures var n := DecodeChar(b).value.1;
            Decode(b[n..]).Some? && Decode(b).value == [DecodeChar(b).value.0] + Decode(b[n..]).value
  {
    hide DecodeChar;
  }

  lemma EncodedAgain(b: Bytes, n: nat, c: char, rest: string)
    requires n <= |b| && EncodeChar(c) == b[..n] && Encode(rest) == b[n..]
    ensures Encode([c] + rest) == b
  {
    EncodeOneMore(c, rest);
    assert b[..n] + b[n..] == b;
  }

  /** Bytes that decode are the encoding of what they decode to. */
  lemma {:induction false} EncodeDecode(b: Bytes)
    requires Decode(b).Some?
    ensures Encode(Decode(b).value) == b
  {
    if b == [] {
      assert Decode(b) == Some("") && Encode("") == b;
    } else {
      DecodedFront(b);
      hide *;
      var c, n := DecodeChar(b).value.0, DecodeChar(b).value.1;
      EncodeDecodedChar(b);
      EncodeDecode(b[n..]);
      EncodedAgain(b, n, c, Decode(b[n..]).value);
    }
  }

  // ----- The header end is the same in bytes and in characters

  const END: Bytes := [13, 10, 13, 10]

  lemma EncodeFront(t: string, rest: Bytes)
    requires t != ""
    ensures Encode(t) + rest == EncodeChar(t[0]) + (Encode(t[1..]) + rest)
  {
  }

  /** A byte below 128 in front is a character in front. */
  lemma FirstByte(t: string, rest: Bytes)
    requires t != ""
    ensures var b := Encode(t) + rest;
            b != [] && (b[0] < 128 || t[0] as int < 128 ==> t[0] as int == b[0] && b[1..] == Encode(t[1..]) + rest)
  {
    hide Encode, EncodeChar;
    EncodeFront(t, rest);
  }

  predicate Begins(b: Bytes, t: string) {
    |t| <= |b| && forall k :: 0 <= k < |t| ==> t[k] as int == b[k]
  }

  /** The encoding begins with some ASCII text exactly if the text does. */
  lemma {:induction false} BeginsEncoded(t: string, rest: Bytes, ascii: string)
    requires |ascii| <= |t| && forall k :: 0 <= k < |ascii| ==> ascii[k] as int < 128
    ensures Begins(Encode(t) + rest, ascii) <==> ascii <= t
  {
    if ascii != "" {
      hide Encode, EncodeChar;
      var b := Encode(t) + rest;
      FirstByte(t, rest);
      BeginsEncoded(t[1..], rest, ascii[1..]);
      if t[0] == ascii[0] {
        BeginsNext(b, ascii);
        assert ascii <= t <==> ascii[1..] <= t[1..];
      }
    }
  }

  /** Without more bytes behind it, however short the text. */
  lemma {:induction false} BeginsIff(t: string, ascii: string)
    requires forall k :: 0 <= k < |ascii| ==> ascii[k] as int < 128
    ensures Begins(Encode(t), ascii) <==> ascii <= t
  {
    if ascii != "" && t != "" {
      hide Encode, EncodeChar;
      FirstByte(t, []);
      assert Encode(t) + [] == Encode(t) && Encode(t[1..]) + [] == Encode(t[1..]);
      BeginsIff(t[1..], ascii[1..]);
      if t[0] == ascii[0] {
        BeginsNext(Encode(t), ascii);
        assert ascii <= t <==> ascii[1..] <= t[1..];
      }
    }
  }

  lemma BeginsNext(b: Bytes, t: string)
    requires b != [] && t != "" && b[0] == t[0] as int
    ensures Begins(b, t) <==> Begins(b[1..], t[1..])
  {
    if Begins(b[1..], t[1..]) {
      assert forall k :: 1 <= k < |t| ==> t[k] == t[1..][k - 1] && b[k] == b[1..][k - 1];
    }
  }

  lemma BlankLineInFront(t: string, rest: Bytes)
    requires |t| >= 4
    ensures At(Encode(t) + rest, END, 0) <==> At(t, BLANK_LINE, 0)
  {
    hide Encode, EncodeChar, At;
    BeginsEncoded(t, rest, BLANK_LINE);
    EndAtFront(Encode(t) + rest);
    BlankLineAt(t, 0);
    BlankLineBegins(t, Encode(t) + rest);
  }

  lemma BlankLineBegins(t: string, b: Bytes)
    ensures BLANK_LINE <= t <==> |t| >= 4 && t[0] == '\r' && t[1] == '\n' && t[2] == '\r' && t[3] == '\n'
    ensures Begins(b, BLANK_LINE) <==> |b| >= 4 && b[0] == 13 && b[1] == 10 && b[2] == 13 && b[3] == 10
  {
    var s := BLANK_LINE;
    assert s[0] == '\r' && s[1] == '\n' && s[2] == '\r' && s[3] == '\n';
    if s <= t { assert t[0] == s[0] && t[1] == s[1] && t[2] == s[2] && t[3] == s[3]; }
    if |t| >= 4 && t[0] == '\r' && t[1] == '\n' && t[2] == '\r' && t[3] == '\n' { assert t[..4] == s; }
  }

  lemma EndAtFront(b: Bytes)
    ensures At(b, END, 0) <==> |b| >= 4 && b[0] == 13 && b[1] == 10 && b[2] == 13 && b[3] == 10
  {
    assert At(b, END, 0) ==> END[0] == b[0] && END[1] == b[1] && END[2] == b[2] && END[3] == b[3];
  }

  lemma {:induction false} FindSkips(b: Bytes, n: nat)
    requires n <= |b| && forall k :: 0 <= k < n ==> b[k] >= 128
    ensures Find(b, END) == Later(Find(b[n..], END), n)
  {
    hide Find, At;
    if n == 0 {
      assert b[0..] == b;
    } else {
      EndAtFront(b);
      FindNext(b, END);
      FindSkips(b[1..], n - 1);
      assert b[1..][n - 1..] == b[n..];
    }
  }

  lemma EncodedFront(t: string, rest: Bytes)
    requires t != "" && !At(Encode(t) + rest, END, 0)
    ensures Find(Encode(t) + rest, END) == Later(Find(Encode(t[1..]) + rest, END), |EncodeChar(t[0])|)
  {
    hide Find, Encode, EncodeChar, At;
    var b, n := Encode(t) + rest, |EncodeChar(t[0])|;
    EncodeFront(t, rest);
    assert b[n..] == Encode(t[1..]) + rest;
    if t[0] as int < 128 {
      FindNext(b, END);
    } else {
      FindSkips(b, n);
    }
  }

  lemma EncodedLength(t: string, i: nat)
    requires 0 < i <= |t|
    ensures |Encode(t[..i])| == |EncodeChar(t[0])| + |Encode(t[1..][..i - 1])|
  {
    assert t[..i][1..] == t[1..][..i - 1];
  }

  /** Where a text has its first blank line, its encoding has its first one, whatever follows. */
  lemma {:induction false} HeaderEndEncoded(t: string, rest: Bytes)
    requires Find(t, BLANK_LINE).Some?
    ensures Find(Encode(t) + rest, END) == Some(|Encode(t[..Find(t, BLANK_LINE).value])|)
  {
    hide EncodeChar, At, Find;
    var i := Find(t, BLANK_LINE).value;
    BlankLineInFront(t, rest);
    FindIsFirst(t, BLANK_LINE);
    if At(t, BLANK_LINE, 0) {
      FindIsFirst(Encode(t) + rest, END);
      assert i == 0;
    } else {
      hide Encode;
      FindNext(t, BLANK_LINE);
      HeaderEndEncoded(t[1..], rest);
      EncodedFront(t, rest);
      EncodedLength(t, i);
    }
  }

  lemma {:induction false} EncodeConcat(a: string, b: string)
    ensures Encode(a + b) == Encode(a) + Encode(b)
  {
    if a == "" {
      assert a + b == b;
    } else {
      assert (a + b)[1..] == a[1..] + b;
      EncodeConcat(a[1..], b);
    }
  }

  lemma EndsInBlankLine(text: string)
    requires |text| >= 4 && Find(text, BLANK_LINE) == Some(|text| - 4)
    ensures text[|text| - 4..] == BLANK_LINE
  {
    FindIsFirst(text, BLANK_LINE);
    BlankLineAt(text, |text| - 4);
  }

  lemma EncodedBlankLine()
    ensures Encode(BLANK_LINE) == END
  {
    assert BLANK_LINE[1..] == "\n\r\n" && "\n\r\n"[1..] == "\r\n" && "\r\n"[1..] == "\n";
  }
}
