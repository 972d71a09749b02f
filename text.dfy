/**
  The Python built-ins the core leans on, written out: `bytes` values, the
  ASCII and UTF-8 codecs behind `str.encode`/`bytes.decode`, `str.split`,
  `str.join`, list slicing with negative bounds, and `int()` on a decimal
  string.  Python strings are `seq<char>`; Dafny's `char` is a Unicode scalar
  value, so a Python string holding a lone surrogate has no counterpart here.
*/
module Text {
  import opened Wrappers

  /** One element of a Python `bytes` value. */
  type byte = x: int | 0 <= x < 256

  const NUL: char := 0 as char
  const NEWLINE: char := '\n'

  predicate IsAscii(s: string) {
    forall i :: 0 <= i < |s| ==> s[i] as int < 0x80
  }

  predicate IsAsciiBytes(b: seq<byte>) {
    forall i :: 0 <= i < |b| ==> b[i] < 0x80
  }

  // ---------------------------------------------------------------------------
  // ASCII codec: `str.encode("ascii")` and `bytes.decode("ascii")`

  /** `s.encode("ascii")`; `None` stands for the UnicodeEncodeError it raises. */
  function EncodeAscii(s: string): (r: Option<seq<byte>>)
    ensures r.Some? <==> IsAscii(s)
    ensures r.Some? ==> |r.value| == |s| && forall i :: 0 <= i < |s| ==> r.value[i] == s[i] as int
  {
    if s == [] then Some([])
    else if s[0] as int >= 0x80 then None
    else match EncodeAscii(s[1..])
      case None => None
      case Some(t) => Some([s[0] as int] + t)
  }

  /** `b.decode("ascii")`; `None` stands for the UnicodeDecodeError it raises. */
  function DecodeAscii(b: seq<byte>): (r: Option<string>)
    ensures r.Some? <==> IsAsciiBytes(b)
    ensures r.Some? ==> |r.value| == |b| && forall i :: 0 <= i < |b| ==> r.value[i] as int == b[i]
  {
    if b == [] then Some([])
    else if b[0] >= 0x80 then None
    else match DecodeAscii(b[1..])
      case None => None
      case Some(t) => Some([b[0] as char] + t)
  }

  lemma {:induction false} AsciiRoundTrip(s: string)
    requires IsAscii(s)
    ensures EncodeAscii(s).Some? && DecodeAscii(EncodeAscii(s).value) == Some(s)
  {
    if s != [] {
      assert IsAscii(s[1..]);
      AsciiRoundTrip(s[1..]);
      var b := EncodeAscii(s).value;
      assert b == [s[0] as int] + EncodeAscii(s[1..]).value;
      assert b[1..] == EncodeAscii(s[1..]).value;
      assert [s[0]] + s[1..] == s;
    }
  }

  lemma {:induction false} AsciiBytesRoundTrip(b: seq<byte>)
    requires IsAsciiBytes(b)
    ensures DecodeAscii(b).Some? && EncodeAscii(DecodeAscii(b).value) == Some(b)
  {
    if b != [] {
      assert IsAsciiBytes(b[1..]);
      AsciiBytesRoundTrip(b[1..]);
      var s := DecodeAscii(b).value;
      assert s == [b[0] as char] + DecodeAscii(b[1..]).value;
      assert s[1..] == DecodeAscii(b[1..]).value;
      assert [b[0]] + b[1..] == b;
    }
  }

  // ---------------------------------------------------------------------------
  // UTF-8 codec: `str.encode("utf-8")` and strict `bytes.decode("utf-8")`

  predicate IsContinuation(x: byte) { 0x80 <= x < 0xC0 }

  /** The UTF-8 encoding of one code point (RFC 3629, section 3). */
  function EncodeChar(c: char): (r: seq<byte>)
    ensures 1 <= |r| <= 4
    ensures |r| == 1 <==> c as int < 0x80
  {
    var cp := c as int;
    if cp < 0x80 then [cp]
    else if cp < 0x800 then [0xC0 + cp / 64, 0x80 + cp % 64]
    else if cp < 0x10000 then [0xE0 + cp / 64 / 64, 0x80 + cp / 64 % 64, 0x80 + cp % 64]
    else [0xF0 + cp / 64 / 64 / 64, 0x80 + cp / 64 / 64 % 64, 0x80 + cp / 64 % 64, 0x80 + cp % 64]
  }

  /** `s.encode("utf-8")`. */
  function EncodeUtf8(s: string): (r: seq<byte>)
    ensures |s| <= |r| <= 4 * |s|
  {
    if s == [] then [] else EncodeChar(s[0]) + EncodeUtf8(s[1..])
  }

  /** On an all-ASCII string the UTF-8 and ASCII encoders agree. */
  lemma {:induction false} Utf8OfAscii(s: string)
    requires IsAscii(s)
    ensures EncodeAscii(s) == Some(EncodeUtf8(s))
  {
    if s != [] {
      assert IsAscii(s[1..]);
      Utf8OfAscii(s[1..]);
    }
  }

  /**
    Decodes the code point that starts `b`, returning it with the number of
    bytes it took.  Overlong forms, surrogates, code points above U+10FFFF,
    stray continuation bytes and truncated sequences are refused, as by
    Python's strict decoder.
  */
  function DecodeChar(b: seq<byte>): (r: Option<(char, nat)>)
    requires |b| > 0
    ensures r.Some? ==> 1 <= r.value.1 <= |b|
  {
    var b0: int := b[0];
    if b0 < 0x80 then Some((b0 as char, 1))
    else if 0xC2 <= b0 < 0xE0 then
      if |b| >= 2 && IsContinuation(b[1])
      then Some((((b0 - 0xC0) * 64 + (b[1] as int - 0x80)) as char, 2))
      else None
    else if 0xE0 <= b0 < 0xF0 then
      var lo := if b0 == 0xE0 then 0xA0 else 0x80;
      var hi := if b0 == 0xED then 0xA0 else 0xC0;
      if |b| >= 3 && lo <= b[1] < hi && IsContinuation(b[2])
      then Some(((((b0 - 0xE0) * 64 + (b[1] as int - 0x80)) * 64 + (b[2] as int - 0x80)) as char, 3))
      else None
    else if 0xF0 <= b0 < 0xF5 then
      var lo := if b0 == 0xF0 then 0x90 else 0x80;
      var hi := if b0 == 0xF4 then 0x90 else 0xC0;
      if |b| >= 4 && lo <= b[1] < hi && IsContinuation(b[2]) && IsContinuation(b[3])
      then Some((((((b0 - 0xF0) * 64 + (b[1] as int - 0x80)) * 64 + (b[2] as int - 0x80)) * 64 + (b[3] as int - 0x80)) as char, 4))
      else None
    else None
  }

  /** `b.decode("utf-8")`; `None` stands for the UnicodeDecodeError it raises. */
  function DecodeUtf8(b: seq<byte>): (r: Option<string>)
    ensures r.Some? ==> |r.value| <= |b|
    decreases |b|
  {
    if b == [] then Some([])
    else match DecodeChar(b)
      case None => None
      case Some((c, n)) =>
        match DecodeUtf8(b[n..])
        case None => None
        case Some(t) => Some([c] + t)
  }

  /** Splitting `q * 64 + r` into its base-64 digits. */
  lemma DivMod64(q: int, r: int)
    requires 0 <= r < 64
    ensures (q * 64 + r) / 64 == q && (q * 64 + r) % 64 == r
  {
  }

  lemma DecodeEncodeChar(c: char, rest: seq<byte>)
    ensures DecodeChar(EncodeChar(c) + rest) == Some((c, |EncodeChar(c)|))
  {
    var cp := c as int;
    if 0x80 <= cp {
      assert cp == cp / 64 * 64 + cp % 64;
      assert cp / 64 == cp / 64 / 64 * 64 + cp / 64 % 64;
      assert cp / 64 / 64 == cp / 64 / 64 / 64 * 64 + cp / 64 / 64 % 64;
    }
  }

  lemma EncodeDecodeChar(b: seq<byte>)
    requires |b| > 0 && DecodeChar(b).Some?
    ensures EncodeChar(DecodeChar(b).value.0) == b[..DecodeChar(b).value.1]
  {
    var n := DecodeChar(b).value.1;
    if n == 2 {
      EncodeDecodeTwo(b);
    } else if n == 3 {
      EncodeDecodeThree(b);
    } else if n == 4 {
      EncodeDecodeFour(b);
    }
  }

  lemma EncodeDecodeTwo(b: seq<byte>)
    requires |b| > 0 && DecodeChar(b).Some? && DecodeChar(b).value.1 == 2
    ensures EncodeChar(DecodeChar(b).value.0) == b[..2]
  {
    DivMod64(b[0] as int - 0xC0, b[1] as int - 0x80);
  }

  lemma EncodeDecodeThree(b: seq<byte>)
    requires |b| > 0 && DecodeChar(b).Some? && DecodeChar(b).value.1 == 3
    ensures EncodeChar(DecodeChar(b).value.0) == b[..3]
  {
    var hi := (b[0] as int - 0xE0) * 64 + (b[1] as int - 0x80);
    DivMod64(hi, b[2] as int - 0x80);
    DivMod64(b[0] as int - 0xE0, b[1] as int - 0x80);
  }

  lemma EncodeDecodeFour(b: seq<byte>)
    requires |b| > 0 && DecodeChar(b).Some? && DecodeChar(b).value.1 == 4
    ensures EncodeChar(DecodeChar(b).value.0) == b[..4]
  {
    var top := (b[0] as int - 0xF0) * 64 + (b[1] as int - 0x80);
    var hi := top * 64 + (b[2] as int - 0x80);
    DivMod64(hi, b[3] as int - 0x80);
    DivMod64(top, b[2] as int - 0x80);
    DivMod64(b[0] as int - 0xF0, b[1] as int - 0x80);
  }

  /** Decoding what `str.encode("utf-8")` produced gives the string back. */
  lemma {:induction false} Utf8RoundTrip(s: string)
    ensures DecodeUtf8(EncodeUtf8(s)) == Some(s)
  {
    if s != [] {
      var e := EncodeUtf8(s);
      var head := EncodeChar(s[0]);
      assert e == head + EncodeUtf8(s[1..]);
      DecodeEncodeChar(s[0], EncodeUtf8(s[1..]));
      assert e[|head|..] == EncodeUtf8(s[1..]);
      Utf8RoundTrip(s[1..]);
      assert [s[0]] + s[1..] == s;
    }
  }

  /** A decodable non-empty buffer starts with the encoding of one character, followed by a decodable rest. */
  lemma DecodeUtf8Head(b: seq<byte>) returns (c: char, n: nat)
    requires b != [] && DecodeUtf8(b).Some?
    ensures 1 <= n <= |b| && DecodeUtf8(b[n..]).Some?
    ensures DecodeUtf8(b) == Some([c] + DecodeUtf8(b[n..]).value)
    ensures EncodeChar(c) == b[..n]
  {
    var r := DecodeChar(b).value;
    c, n := r.0, r.1;
    EncodeDecodeChar(b);
  }

  /** The decoder accepts only canonical encodings: re-encoding what it accepted gives the bytes back. */
  lemma {:induction false} Utf8BytesRoundTrip(b: seq<byte>)
    requires DecodeUtf8(b).Some?
    ensures EncodeUtf8(DecodeUtf8(b).value) == b
    decreases |b|
  {
    if b != [] {
      var c, n := DecodeUtf8Head(b);
      var t := DecodeUtf8(b[n..]).value;
      Utf8BytesRoundTrip(b[n..]);
      var s := [c] + t;
      assert s[0] == c && s[1..] == t;
      assert EncodeUtf8(s) == b[..n] + b[n..];
      assert b[..n] + b[n..] == b;
    }
  }

  // ---------------------------------------------------------------------------
  // Sequence and string helpers

  /** `''.join(pieces)` */
  function Concat(pieces: seq<string>): string {
    if pieces == [] then [] else pieces[0] + Concat(pieces[1..])
  }

  /** `sep.join(pieces)` for a one-character separator. */
  function JoinWith(pieces: seq<string>, sep: char): string {
    if |pieces| == 0 then []
    else if |pieces| == 1 then pieces[0]
    else pieces[0] + [sep] + JoinWith(pieces[1..], sep)
  }

  /** `s.split(sep)` for a one-character separator: every separator ends one piece. */
  function Split(s: string, sep: char): (pieces: seq<string>)
    ensures |pieces| >= 1
    ensures forall i :: 0 <= i < |pieces| ==> sep !in pieces[i]
    ensures JoinWith(pieces, sep) == s
  {
    if s == [] then [[]]
    else
      var rest := Split(s[1..], sep);
      if s[0] == sep then [[]] + rest
      else
        var first := [s[0]] + rest[0];
        assert sep !in first;
        assert JoinWith([first] + rest[1..], sep) == s by {
          if |rest| > 1 {
            assert ([first] + rest[1..])[1..] == rest[1..];
          }
          assert [s[0]] + s[1..] == s;
        }
        [first] + rest[1..]
  }

  lemma {:induction false} ConcatAppend(a: seq<string>, b: seq<string>)
    ensures Concat(a + b) == Concat(a) + Concat(b)
  {
    if a == [] {
      assert a + b == b;
    } else {
      assert (a + b)[1..] == a[1..] + b;
      ConcatAppend(a[1..], b);
      assert Concat(a + b) == a[0] + (Concat(a[1..]) + Concat(b));
    }
  }

  lemma {:induction false} ConcatFree(pieces: seq<string>, c: char)
    requires forall i :: 0 <= i < |pieces| ==> c !in pieces[i]
    ensures c !in Concat(pieces)
  {
    if pieces != [] {
      ConcatFree(pieces[1..], c);
    }
  }

  /** Splitting a separator-free list of pieces joined by the separator gives the list back. */
  lemma {:induction false} SplitJoin(pieces: seq<string>, sep: char)
    requires |pieces| >= 1
    requires forall i :: 0 <= i < |pieces| ==> sep !in pieces[i]
    ensures Split(JoinWith(pieces, sep), sep) == pieces
    decreases |JoinWith(pieces, sep)|, |pieces|
  {
    var p := pieces[0];
    if |pieces| == 1 {
      SplitPiece(p, [], sep);
      assert p + [] == p;
    } else {
      var tail := JoinWith(pieces[1..], sep);
      assert JoinWith(pieces, sep) == p + ([sep] + tail);
      SplitJoin(pieces[1..], sep);
      SplitPieceThenSep(p, tail, sep);
      assert [p] + pieces[1..] == pieces;
    }
  }

  /** A separator-free prefix joins the first piece of what follows it. */
  lemma {:induction false} SplitPiece(p: string, rest: string, sep: char)
    requires sep !in p
    ensures Split(p + rest, sep) == [p + Split(rest, sep)[0]] + Split(rest, sep)[1..]
    decreases |p|
  {
    if p != [] {
      assert (p + rest)[1..] == p[1..] + rest;
      SplitPiece(p[1..], rest, sep);
      assert [p[0]] + (p[1..] + Split(rest, sep)[0]) == p + Split(rest, sep)[0];
    } else {
      assert p + rest == rest;
      assert p + Split(rest, sep)[0] == Split(rest, sep)[0];
      assert [Split(rest, sep)[0]] + Split(rest, sep)[1..] == Split(rest, sep);
    }
  }

  lemma SplitPieceThenSep(p: string, tail: string, sep: char)
    requires sep !in p
    ensures Split(p + ([sep] + tail), sep) == [p] + Split(tail, sep)
  {
    SplitPiece(p, [sep] + tail, sep);
    assert ([sep] + tail)[1..] == tail;
    assert Split([sep] + tail, sep) == [[]] + Split(tail, sep);
    assert p + [] == p;
  }

  /** Python's clamping of a slice bound against a length. */
  function SliceBound(i: int, len: nat): (r: nat)
    ensures r <= len
  {
    if i < 0 then (if i + len < 0 then 0 else i + len)
    else if i > len then len
    else i
  }

  /** `s[start:stop]` with Python's negative-index and clamping rules. */
  function PySlice<T>(s: seq<T>, start: int, stop: int): (r: seq<T>)
    ensures |r| <= |s|
    ensures 0 <= start <= stop <= |s| ==> r == s[start..stop]
    ensures 0 <= start && stop < 0 && start <= |s| + stop ==> r == s[start..|s| + stop]
    ensures 0 <= start && stop < 0 && |s| + stop <= start ==> r == []
  {
    var lo := SliceBound(start, |s|);
    var hi := SliceBound(stop, |s|);
    if lo < hi then s[lo..hi] else []
  }

  // ---------------------------------------------------------------------------
  // int() on a decimal string, and its inverse

  predicate IsDigit(c: char) { '0' <= c <= '9' }

  predicate AllDigits(s: string) { forall i :: 0 <= i < |s| ==> IsDigit(s[i]) }

  function DigitsValue(s: string): nat
    requires AllDigits(s)
  {
    if s == [] then 0 else DigitsValue(s[..|s| - 1]) * 10 + (s[|s| - 1] as int - '0' as int)
  }

  /**
    `int(s)` for an optional sign followed by decimal digits; `None` stands
    for the ValueError raised on anything else.
  */
  function ParseInt(s: string): (r: Option<int>)
    ensures r.Some? ==> s != [] && (r.value < 0 ==> s[0] == '-')
    ensures AllDigits(s) && s != [] ==> r == Some(DigitsValue(s))
    ensures s != [] && !AllDigits(s) && s[0] != '-' && s[0] != '+' ==> r.None?
  {
    if s == [] then None
    else if s[0] == '-' || s[0] == '+' then
      var digits := s[1..];
      if digits != [] && AllDigits(digits) then
        Some(if s[0] == '-' then -(DigitsValue(digits) as int) else DigitsValue(digits))
      else None
    else if AllDigits(s) then Some(DigitsValue(s))
    else None
  }

  /** `str(n)` for a natural number. */
  function FormatNat(n: nat): (s: string)
    ensures s != [] && AllDigits(s)
  {
    var d := [(n % 10 + '0' as int) as char];
    if n < 10 then d else FormatNat(n / 10) + d
  }

  lemma {:induction false} DigitsOfFormat(n: nat)
    ensures DigitsValue(FormatNat(n)) == n
  {
    var s := FormatNat(n);
    if n >= 10 {
      DigitsOfFormat(n / 10);
      assert s[..|s| - 1] == FormatNat(n / 10);
    }
  }

  /** `int(str(n)) == n` */
  lemma ParseFormat(n: nat)
    ensures ParseInt(FormatNat(n)) == Some(n)
  {
    DigitsOfFormat(n);
  }
}
