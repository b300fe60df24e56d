/** UTF-8, as `str.encode("utf-8")` and the strict `bytes.decode("utf-8")` (RFC 3629, section 3). */
module Utf8 {
  import opened Wrappers

  type byte = x: int | 0 <= x < 256

  type bytes = seq<byte>

  const NEWLINE: byte := 10

  /** One to four bytes: six payload bits in each trailing byte, the rest in the leading one. */
  function EncodeChar(c: char): (r: bytes)
    ensures 1 <= |r| <= 4
  {
    var n := c as int;
    var n1, n2, n3 := n / 64, n / 64 / 64, n / 64 / 64 / 64;
    if n < 0x80 then [n]
    else if n < 0x800 then [0xC0 + n1, 0x80 + n % 64]
    else if n < 0x1_0000 then [0xE0 + n2, 0x80 + n1 % 64, 0x80 + n % 64]
    else [0xF0 + n3, 0x80 + n2 % 64, 0x80 + n1 % 64, 0x80 + n % 64]
  }

  function Encode(s: string): bytes {
    if s == "" then [] else EncodeChar(s[0]) + Encode(s[1..])
  }

  predicate Continuation(b: byte) {
    0x80 <= b < 0xC0
  }

  /** The payload of a byte whose marker bits are worth `mark`. */
  function Bits(b: byte, mark: int): int {
    (b as int) - mark
  }

  function Two(b: bytes): int
    requires |b| >= 2
  {
    64 * Bits(b[0], 0xC0) + Bits(b[1], 0x80)
  }

  function Three(b: bytes): int
    requires |b| >= 3
  {
    64 * (64 * Bits(b[0], 0xE0) + Bits(b[1], 0x80)) + Bits(b[2], 0x80)
  }

  function Four(b: bytes): int
    requires |b| >= 4
  {
    64 * (64 * (64 * Bits(b[0], 0xF0) + Bits(b[1], 0x80)) + Bits(b[2], 0x80)) + Bits(b[3], 0x80)
  }

  predicate Scalar(n: int) {
    0 <= n < 0xD800 || 0xE000 <= n < 0x11_0000
  }

  /** The first character of `b` and how many bytes it takes; overlong forms and surrogates fail. */
  function DecodeFirst(b: bytes): (r: Option<(char, nat)>)
    ensures r.Some? ==> 1 <= r.value.1 <= |b|
  {
    if |b| >= 1 && b[0] < 0x80 then
      Some((b[0] as char, 1))
    else if |b| >= 2 && 0xC2 <= b[0] < 0xE0 && Continuation(b[1]) then
      Some((Two(b) as char, 2))
    else if |b| >= 3 && 0xE0 <= b[0] < 0xF0 && Continuation(b[1]) && Continuation(b[2]) then
      if Three(b) >= 0x800 && Scalar(Three(b)) then Some((Three(b) as char, 3)) else None
    else if |b| >= 4 && 0xF0 <= b[0] < 0xF5 && Continuation(b[1]) && Continuation(b[2]) && Continuation(b[3]) then
      if Four(b) >= 0x1_0000 && Scalar(Four(b)) then Some((Four(b) as char, 4)) else None
    else
      None
  }

  function Decode(b: bytes): Option<string> {
    if b == [] then Some("")
    else
      var first := DecodeFirst(b);
      if first.None? then None
      else
        var rest := Decode(b[first.value.1..]);
        if rest.None? then None else Some([first.value.0] + rest.value)
  }

  /** How many bytes a character takes, which range each is from, and what they are worth together. */
  lemma EncodedForm(c: char)
    ensures var e, n := EncodeChar(c), c as int;
      && (forall i :: 1 <= i < |e| ==> 0x80 <= e[i] <= 0xBF)
      && (n <= 0x7F <==> |e| == 1) && (0x80 <= n <= 0x7FF <==> |e| == 2) && (0x800 <= n <= 0xFFFF <==> |e| == 3)
      && (|e| == 1 ==> n == e[0])
      && (|e| == 2 ==> 0xC0 <= e[0] <= 0xDF && n == (e[0] as int - 0xC0) * 64 + (e[1] as int - 0x80))
      && (|e| == 3 ==>
            && 0xE0 <= e[0] <= 0xEF
            && n == (e[0] as int - 0xE0) * 4096 + (e[1] as int - 0x80) * 64 + (e[2] as int - 0x80))
      && (|e| == 4 ==>
            && 0xF0 <= e[0] <= 0xF4
            && n == (e[0] as int - 0xF0) * 262144 + (e[1] as int - 0x80) * 4096
                    + (e[2] as int - 0x80) * 64 + (e[3] as int - 0x80))
  {
    var n := c as int;
    var n1, n2 := n / 64, n / 64 / 64;
    assert n == 64 * n1 + n % 64 && n1 == 64 * n2 + n1 % 64 && n2 == 64 * (n2 / 64) + n2 % 64;
  }

  lemma DecodeFirstOfEncodeChar(c: char, rest: bytes)
    ensures DecodeFirst(EncodeChar(c) + rest) == Some((c, |EncodeChar(c)|))
  {
    var n := c as int;
    var n1, n2 := n / 64, n / 64 / 64;
    var e := EncodeChar(c);
    var b := e + rest;
    assert b[0] == e[0] && forall i :: 0 <= i < |e| ==> b[i] == e[i];
    if n < 0x80 {
    } else if n < 0x800 {
      assert Two(b) == n;
    } else if n < 0x1_0000 {
      assert 64 * Bits(b[0], 0xE0) + Bits(b[1], 0x80) == n1;
      assert Three(b) == n;
    } else {
      assert 64 * Bits(b[0], 0xF0) + Bits(b[1], 0x80) == n2;
      assert 64 * n2 + Bits(b[2], 0x80) == n1;
      assert Four(b) == n;
    }
  }

  lemma EncodeCharOfDecodeFirst(b: bytes)
    requires DecodeFirst(b).Some?
    ensures EncodeChar(DecodeFirst(b).value.0) == b[..DecodeFirst(b).value.1]
  {
    var (c, k) := DecodeFirst(b).value;
    var n := c as int;
    if k == 2 {
      assert n / 64 == Bits(b[0], 0xC0) && n % 64 == Bits(b[1], 0x80);
    } else if k == 3 {
      assert n / 64 == 64 * Bits(b[0], 0xE0) + Bits(b[1], 0x80) && n % 64 == Bits(b[2], 0x80);
      assert n / 64 / 64 == Bits(b[0], 0xE0) && n / 64 % 64 == Bits(b[1], 0x80);
    } else if k == 4 {
      assert n / 64 == 64 * (64 * Bits(b[0], 0xF0) + Bits(b[1], 0x80)) + Bits(b[2], 0x80);
      assert n % 64 == Bits(b[3], 0x80) && n / 64 % 64 == Bits(b[2], 0x80);
      assert n / 64 / 64 == 64 * Bits(b[0], 0xF0) + Bits(b[1], 0x80);
      assert n / 64 / 64 / 64 == Bits(b[0], 0xF0) && n / 64 / 64 % 64 == Bits(b[1], 0x80);
    }
  }

  /** Decoding is a left inverse of encoding on every string. */
  lemma {:induction false} DecodeEncode(s: string)
    ensures Decode(Encode(s)) == Some(s)
  {
    if s != "" {
      var e := EncodeChar(s[0]);
      var rest := Encode(s[1..]);
      DecodeFirstOfEncodeChar(s[0], rest);
      assert (e + rest)[|e|..] == rest;
      DecodeEncode(s[1..]);
      assert s == [s[0]] + s[1..];
    }
  }

  lemma EncodeCons(c: char, s: string)
    ensures Encode([c] + s) == EncodeChar(c) + Encode(s)
  {
    assert ([c] + s)[1..] == s;
  }

  /** Bytes that decode at all are the encoding of what they decode to. */
  lemma {:induction false} EncodeDecode(b: bytes)
    requires Decode(b).Some?
    ensures Encode(Decode(b).value) == b
  {
    hide DecodeFirst;
    hide EncodeChar;
    if b != [] {
      var (c, k) := DecodeFirst(b).value;
      DecodeStep(b);
      EncodeDecode(b[k..]);
      EncodeCons(c, Decode(b[k..]).value);
      EncodeCharOfDecodeFirst(b);
      assert b == b[..k] + b[k..];
    }
  }

  lemma DecodeStep(b: bytes)
    requires b != [] && Decode(b).Some?
    ensures DecodeFirst(b).Some? && Decode(b[DecodeFirst(b).value.1..]).Some?
    ensures Decode(b).value == [DecodeFirst(b).value.0] + Decode(b[DecodeFirst(b).value.1..]).value
  {
    hide DecodeFirst;
  }

  lemma {:induction false} EncodeAppend(a: string, b: string)
    ensures Encode(a + b) == Encode(a) + Encode(b)
  {
    if a == "" {
      assert a + b == b;
    } else {
      assert (a + b)[1..] == a[1..] + b;
      EncodeAppend(a[1..], b);
    }
  }

  /** Newline bytes occur exactly where newline characters do. */
  lemma {:induction false} EncodeNewline(s: string)
    ensures NEWLINE in Encode(s) <==> '\n' in s
  {
    if s != "" {
      EncodeNewline(s[1..]);
      var e := EncodeChar(s[0]);
      assert NEWLINE in e <==> s[0] == '\n';
      assert s == [s[0]] + s[1..];
    }
  }

  /** No character takes more than four bytes. */
  lemma {:induction false} EncodeLength(s: string)
    ensures |s| <= |Encode(s)| <= 4 * |s|
  {
    if s != "" {
      EncodeLength(s[1..]);
    }
  }
}
