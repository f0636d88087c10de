/** UTF-8 as `String::from_utf8`, `str::len` and slicing at a byte position see it. */
module Utf8 {
  import opened Options

  type Byte = n: nat | n < 256

  const NEWLINE: Byte := 10
  const RETURN: Byte := 13

  function Width(c: char): (n: nat)
    ensures 1 <= n <= 4
  {
    var v := c as int;
    if v < 0x80 then 1 else if v < 0x800 then 2 else if v < 0x10000 then 3 else 4
  }

  /** `str::len`: the number of bytes. */
  function Size(s: string): (n: nat)
    ensures |s| <= n
  {
    if s == "" then 0 else Width(s[0]) + Size(s[1..])
  }

  function EncodeChar(c: char): (b: seq<Byte>)
    ensures |b| == Width(c)
  {
    var v := c as int;
    var high := v / 64;
    if v < 0x80 then [v]
    else if v < 0x800 then [0xC0 + high, 0x80 + v % 64]
    else if v < 0x10000 then [0xE0 + high / 64, 0x80 + high % 64, 0x80 + v % 64]
    else [0xF0 + high / 64 / 64, 0x80 + high / 64 % 64, 0x80 + high % 64, 0x80 + v % 64]
  }

  function Encode(s: string): (b: seq<Byte>)
    ensures |b| == Size(s)
  {
    if s == "" then [] else EncodeChar(s[0]) + Encode(s[1..])
  }

  predicate Continuation(b: Byte) {
    0x80 <= b < 0xC0
  }

  /** How many bytes a character starting with `b` has; 0 if none starts so. */
  function LeadWidth(b: Byte): (n: nat)
    ensures n <= 4
  {
    if b < 0x80 then 1
    else if b < 0xC0 then 0
    else if b < 0xE0 then 2
    else if b < 0xF0 then 3
    else if b < 0xF8 then 4
    else 0
  }

  /** `high` followed by the six payload bits of a continuation byte. */
  function Append(high: int, b: Byte): int {
    high * 64 + (b as int - 0x80)
  }

  /** The number the payload bits of 1 to 4 bytes stand for. */
  function Payload(b: seq<Byte>): int
    requires 1 <= |b| <= 4
  {
    var lead: int := b[0];
    if |b| == 1 then lead
    else if |b| == 2 then Append(lead - 0xC0, b[1])
    else if |b| == 3 then Append(Append(lead - 0xE0, b[1]), b[2])
    else Append(Append(Append(lead - 0xF0, b[1]), b[2]), b[3])
  }

  predicate IsScalar(v: int) {
    0 <= v < 0xD800 || 0xE000 <= v < 0x11_0000
  }

  /** The first character: some scalar value, and these bytes are its encoding and not merely worth the same. */
  function DecodeFirst(b: seq<Byte>): (r: Option<char>)
    requires b != []
    ensures r.Some? ==> EncodeChar(r.value) <= b
  {
    var n := LeadWidth(b[0]);
    if n == 0 || |b| < n then None
    else
      var v := Payload(b[..n]);
      if IsScalar(v) && EncodeChar(v as char) == b[..n] then Some(v as char) else None
  }

  function Decode(b: seq<Byte>): Option<string>
    decreases |b|
  {
    if b == [] then Some("")
    else
      match DecodeFirst(b)
      case None => None
      case Some(c) =>
        match Decode(b[Width(c)..])
        case None => None
        case Some(rest) => Some([c] + rest)
  }

  /** The number of characters in the first `n` bytes; `None` if a character goes across that position. */
  function Cut(s: string, n: nat): (r: Option<nat>)
    ensures r.Some? ==> r.value <= |s|
  {
    if n == 0 then Some(0)
    else if s == "" || Width(s[0]) > n then None
    else
      match Cut(s[1..], n - Width(s[0]))
      case None => None
      case Some(k) => Some(k + 1)
  }

  // ---------------------------------------------------------------- sizes

  lemma {:induction false} SizeConcat(a: string, b: string)
    ensures Size(a + b) == Size(a) + Size(b)
  {
    if a == "" {
      assert a + b == b;
    } else {
      assert (a + b)[1..] == a[1..] + b;
      SizeConcat(a[1..], b);
    }
  }

  predicate Ascii(s: string) {
    forall i | 0 <= i < |s| :: s[i] as int < 0x80
  }

  lemma {:induction false} AsciiSize(s: string)
    requires Ascii(s)
    ensures Size(s) == |s|
  {
    if s != "" {
      AsciiSize(s[1..]);
    }
  }

  // ---------------------------------------------------------------- encoding and decoding

  lemma {:induction false} EncodeConcat(a: string, b: string)
    ensures Encode(a + b) == Encode(a) + Encode(b)
  {
    if a == "" {
      assert a + b == b;
    } else {
      assert (a + b)[1..] == a[1..] + b;
      EncodeConcat(a[1..], b);
    }
  }

  lemma EncodedFirst(c: char)
    ensures LeadWidth(EncodeChar(c)[0]) == Width(c) && Payload(EncodeChar(c)) == c as int
    ensures !Continuation(EncodeChar(c)[0]) && forall i | 0 < i < Width(c) :: Continuation(EncodeChar(c)[i])
  {
  }

  lemma DecodeFirstOfEncode(c: char, rest: seq<Byte>)
    ensures DecodeFirst(EncodeChar(c) + rest) == Some(c)
  {
    EncodedFirst(c);
    var b := EncodeChar(c) + rest;
    assert b[0] == EncodeChar(c)[0] && b[..Width(c)] == EncodeChar(c);
  }

  /** Text that is sent arrives as that text. */
  lemma {:induction false} DecodeOfEncode(s: string)
    ensures Decode(Encode(s)) == Some(s)
  {
    if s != "" {
      hide EncodeChar, DecodeFirst;
      DecodeFirstOfEncode(s[0], Encode(s[1..]));
      assert Encode(s)[Width(s[0])..] == Encode(s[1..]);
      DecodeOfEncode(s[1..]);
      assert [s[0]] + s[1..] == s;
    }
  }

  lemma DecodedParts(b: seq<Byte>) returns (c: char, tail: seq<Byte>)
    requires b != [] && Decode(b).Some?
    ensures b == EncodeChar(c) + tail && |tail| < |b|
    ensures Decode(tail).Some? && Decode(b).value == [c] + Decode(tail).value
  {
    hide EncodeChar, DecodeFirst;
    c := DecodeFirst(b).value;
    tail := b[Width(c)..];
    assert b[..Width(c)] == EncodeChar(c);
  }

  lemma EncodeCons(c: char, s: string)
    ensures Encode([c] + s) == EncodeChar(c) + Encode(s)
  {
    assert ([c] + s)[1..] == s;
  }

  /** No two byte sequences are the same text. */
  lemma {:induction false} EncodeOfDecode(b: seq<Byte>)
    ensures Decode(b).Some? ==> Encode(Decode(b).value) == b
    decreases |b|
  {
    assert Decode([]) == Some("") && Encode("") == [];
    if b != [] && Decode(b).Some? {
      hide EncodeChar, DecodeFirst, Decode, Encode;
      var c, tail := DecodedParts(b);
      EncodeOfDecode(tail);
      EncodeCons(c, Decode(tail).value);
    }
  }

  /** Bytes are accepted exactly when they are the encoding of some text, and then as that text. */
  lemma DecodeExact(b: seq<Byte>, s: string)
    ensures Decode(b) == Some(s) <==> Encode(s) == b
  {
    EncodeOfDecode(b);
    DecodeOfEncode(s);
  }

  /** The examples of section 7 of RFC 3629, character by character, and the ellipsis. */
  lemma KnownEncodings()
    ensures EncodeChar('A') == [0x41] && EncodeChar('\U{2262}') == [0xE2, 0x89, 0xA2]
    ensures EncodeChar('\U{391}') == [0xCE, 0x91] && EncodeChar('\U{D55C}') == [0xED, 0x95, 0x9C]
    ensures EncodeChar('\U{233B4}') == [0xF0, 0xA3, 0x8E, 0xB4] && EncodeChar('\U{2026}') == [0xE2, 0x80, 0xA6]
  {
  }

  /** ASCII bytes stand for themselves and occur in no other character. */
  lemma {:induction false} AsciiBytes(s: string, c: char)
    requires c as int < 0x80
    ensures c as int in Encode(s) <==> c in s
  {
    if s != "" {
      AsciiBytes(s[1..], c);
      CharBytes(s[0], c);
      assert s == [s[0]] + s[1..];
    }
  }

  lemma CharBytes(x: char, c: char)
    requires c as int < 0x80
    ensures c as int in EncodeChar(x) <==> c == x
    ensures EncodeChar(x)[Width(x) - 1] == c as int <==> c == x
  {
  }

  lemma LastByte(s: string, c: char)
    requires s != "" && c as int < 0x80
    ensures Encode(s)[|Encode(s)| - 1] == c as int <==> s[|s| - 1] == c
  {
    hide EncodeChar;
    var n := |s| - 1;
    assert s == s[..n] + [s[n]];
    EncodeConcat(s[..n], [s[n]]);
    EncodeOne(s[n]);
    CharBytes(s[n], c);
  }

  lemma EncodeOne(c: char)
    ensures Encode([c]) == EncodeChar(c)
  {
    assert [c][1..] == "";
  }

  // ---------------------------------------------------------------- cutting at a byte position

  /** `str::is_char_boundary`. */
  predicate Boundary(s: string, n: nat) {
    n == |Encode(s)| || (n < |Encode(s)| && !Continuation(Encode(s)[n]))
  }

  lemma BoundaryNext(s: string, n: nat)
    requires s != "" && n > 0
    ensures Boundary(s, n) <==> n >= Width(s[0]) && Boundary(s[1..], n - Width(s[0]))
  {
    hide EncodeChar;
    EncodedFirst(s[0]);
    var w := Width(s[0]);
    if n < w {
      assert Encode(s)[n] == EncodeChar(s[0])[n];
    } else if n < |Encode(s)| {
      assert Encode(s)[n] == Encode(s[1..])[n - w];
    }
  }

  lemma BoundaryStart(s: string)
    ensures Boundary(s, 0)
  {
    if s != "" {
      EncodedFirst(s[0]);
      assert Encode(s)[0] == EncodeChar(s[0])[0];
    }
  }

  /** A text can be cut at a byte position exactly when no character goes across it; the parts are those bytes. */
  lemma {:induction false} CutExact(s: string, n: nat)
    ensures Cut(s, n).Some? <==> Boundary(s, n)
    ensures Cut(s, n).Some? ==> Encode(s[..Cut(s, n).value]) == Encode(s)[..n]
  {
    BoundaryStart(s);
    if n > 0 && s != "" {
      hide EncodeChar, Boundary;
      BoundaryNext(s, n);
      var w := Width(s[0]);
      if n >= w {
        CutExact(s[1..], n - w);
        if Cut(s, n).Some? {
          CutStep(s, n);
        }
      }
    }
  }

  lemma CutStep(s: string, n: nat)
    requires s != "" && n >= Width(s[0]) && Cut(s, n).Some? && n - Width(s[0]) <= |Encode(s[1..])|
    requires Encode(s[1..][..Cut(s[1..], n - Width(s[0])).value]) == Encode(s[1..])[..n - Width(s[0])]
    ensures Encode(s[..Cut(s, n).value]) == Encode(s)[..n]
  {
    hide EncodeChar;
    var k := Cut(s[1..], n - Width(s[0])).value;
    assert s[..k + 1][1..] == s[1..][..k];
    assert Encode(s[..k + 1]) == EncodeChar(s[0]) + Encode(s[1..][..k]);
  }

  /** Cutting at the size of a beginning gives that beginning. */
  lemma {:induction false} CutPrefix(s: string, start: string)
    requires start <= s
    ensures Cut(s, Size(start)) == Some(|start|)
  {
    if start != "" {
      assert start[0] == s[0] && start[1..] <= s[1..];
      CutPrefix(s[1..], start[1..]);
    }
  }

  lemma {:induction false} CutAscii(s: string, n: nat)
    requires n <= |s| && Ascii(s[..n])
    ensures Cut(s, n) == Some(n)
  {
    if n > 0 {
      assert s[1..][..n - 1] == s[..n][1..];
      assert s[..n][0] == s[0];
      CutAscii(s[1..], n - 1);
    }
  }
}
