/**
 * Form encoding of key/value pairs as `urllib.parse.urlencode` writes it with
 * `quote_plus`: every text is turned into UTF-8 (RFC 3629), each byte outside
 * the unreserved set becomes `%XY` (upper-case hexadecimal), a space becomes
 * `+`, a pair is `key=value`, and pairs are joined with `&`.
 *
 * The decoding side (percent escapes and UTF-8 read back, pairs split at `&`
 * and `=`) is the partner that shows the encoding loses nothing.
 */
module FormEncoding {
  import opened Wrappers
  import opened PyText

  predicate IsByte(b: int) {
    0 <= b < 256
  }

  predicate AreBytes(bs: seq<int>) {
    forall i :: 0 <= i < |bs| ==> IsByte(bs[i])
  }

  /** A Unicode scalar value: a code point that is not a surrogate. */
  predicate IsScalar(cp: int) {
    0 <= cp < 0xD800 || 0xE000 <= cp < 0x11_0000
  }

  /**
   * The UTF-8 encoding of one character (section 3 of RFC 3629): the code
   * point's bits in groups of six, the highest group in the lead byte.
   */
  function Utf8(c: char): (bs: seq<int>)
    ensures 1 <= |bs| <= 4 && AreBytes(bs)
  {
    var cp := c as int;
    var q1, q2 := cp / 64, cp / 64 / 64;
    if cp < 0x80 then [cp]
    else if cp < 0x800 then [0xC0 + q1, 0x80 + cp % 64]
    else if cp < 0x1_0000 then [0xE0 + q2, 0x80 + q1 % 64, 0x80 + cp % 64]
    else [0xF0 + q2 / 64, 0x80 + q2 % 64, 0x80 + q1 % 64, 0x80 + cp % 64]
  }

  /** `s.encode("utf-8")`. */
  function Utf8Bytes(s: string): (bs: seq<int>)
    ensures AreBytes(bs)
  {
    if s == [] then [] else Utf8(s[0]) + Utf8Bytes(s[1..])
  }

  /** The length of the sequence a lead byte announces, 0 for a byte no sequence starts with. */
  function SequenceLength(lead: int): nat {
    if 0 <= lead < 0x80 then 1
    else if 0xC0 <= lead < 0xE0 then 2
    else if 0xE0 <= lead < 0xF0 then 3
    else if 0xF0 <= lead < 0xF8 then 4
    else 0
  }

  predicate IsContinuation(b: int) {
    0x80 <= b < 0xC0
  }

  /** The code point of a well-formed sequence of `SequenceLength(bs[0])` bytes. */
  function CodePoint(bs: seq<int>): int
    requires 1 <= |bs| <= 4
  {
    if |bs| == 1 then bs[0]
    else if |bs| == 2 then (bs[0] - 0xC0) * 64 + (bs[1] - 0x80)
    else if |bs| == 3 then ((bs[0] - 0xE0) * 64 + (bs[1] - 0x80)) * 64 + (bs[2] - 0x80)
    else (((bs[0] - 0xF0) * 64 + (bs[1] - 0x80)) * 64 + (bs[2] - 0x80)) * 64 + (bs[3] - 0x80)
  }

  /** Decoding UTF-8: `None` for a truncated sequence, a stray byte or a code point that is no character. */
  function Utf8Decode(bs: seq<int>): Option<string>
    decreases |bs|
  {
    if bs == [] then Some("")
    else
      var n := SequenceLength(bs[0]);
      if n == 0 || |bs| < n then None
      else if !(forall k :: 1 <= k < n ==> IsContinuation(bs[k])) then None
      else
        var cp := CodePoint(bs[..n]);
        if !IsScalar(cp) then None
        else Cons(cp as char, Utf8Decode(bs[n..]))
  }

  /** The bytes `quote_plus` leaves as they are: ASCII letters and digits and `_.-~`. */
  predicate IsUnreserved(b: int) {
    'A' as int <= b <= 'Z' as int || 'a' as int <= b <= 'z' as int || '0' as int <= b <= '9' as int
    || b == '_' as int || b == '.' as int || b == '-' as int || b == '~' as int
  }

  /** How `quote_plus` writes one byte. */
  function QuoteByte(b: int): (r: string)
    requires IsByte(b)
    ensures '&' !in r && '=' !in r
  {
    if IsUnreserved(b) then [b as char]
    else if b == 0x20 then "+"
    else
      HexByte(b);
      "%" + FormatHex(b, 2)
  }

  /** `format(b, "02X")` of a byte: two hexadecimal digits worth `b`, neither of them `&` or `=`. */
  lemma HexByte(b: int)
    requires IsByte(b)
    ensures var h := FormatHex(b, 2);
      |h| == 2 && AllDigitsOf(h, 16) && ValueOf(h, 16) == b && '&' !in h && '=' !in h
  {
    var d := NatDigits(b, 16);
    var h := ZeroPad(d, 2);
    NatDigitsShort(b);
    PaddedDigits(d, 2, 16);
    assert FormatHex(b, 2) == h;
    forall i | 0 <= i < |h| ensures h[i] != '&' && h[i] != '=' {
      assert DigitValue(h[i]) < 16;
    }
  }

  function QuoteBytes(bs: seq<int>): (r: string)
    requires AreBytes(bs)
    ensures '&' !in r && '=' !in r
  {
    if bs == [] then "" else QuoteByte(bs[0]) + QuoteBytes(bs[1..])
  }

  /** `quote_plus(s)`. */
  function QuotePlus(s: string): (r: string)
    ensures '&' !in r && '=' !in r
  {
    QuoteBytes(Utf8Bytes(s))
  }

  /** `urlencode(pairs)`: `key=value` for every pair, in order, joined by `&`. */
  function UrlEncode(pairs: seq<(string, string)>): string {
    Join(seq(|pairs|, i requires 0 <= i < |pairs| => QuotePlus(pairs[i].0) + "=" + QuotePlus(pairs[i].1)), "&")
  }

  predicate IsHexDigit(c: char) {
    DigitValue(c) < 16
  }

  /** Reading escaped text back into bytes: `+` is a space, `%XY` a byte, other ASCII stands for itself. */
  function UnquoteBytes(s: string): Option<seq<int>> {
    if s == [] then Some([])
    else
      var head: Option<(int, nat)> :=
        if s[0] == '+' then Some((0x20, 1))
        else if s[0] == '%' && |s| >= 3 && IsHexDigit(s[1]) && IsHexDigit(s[2]) then
          Some((DigitValue(s[1]) * 16 + DigitValue(s[2]), 3))
        else if s[0] as int < 0x80 then Some((s[0] as int, 1))
        else None;
      match head
      case None => None
      case Some(step) =>
        if |s| < step.1 then None
        else Cons(step.0, UnquoteBytes(s[step.1..]))
  }

  /** Reading one `quote_plus`-escaped text back. */
  function UnquotePlus(s: string): Option<string> {
    match UnquoteBytes(s)
    case None => None
    case Some(bs) => Utf8Decode(bs)
  }

  /** Reading one `key=value` piece back. */
  function DecodePair(piece: string): Option<(string, string)> {
    var halves := Split(piece, '=');
    if |halves| != 2 then None
    else match (UnquotePlus(halves[0]), UnquotePlus(halves[1]))
      case (Some(k), Some(v)) => Some((k, v))
      case _ => None
  }

  function DecodePairs(pieces: seq<string>): Option<seq<(string, string)>> {
    if pieces == [] then Some([])
    else match (DecodePair(pieces[0]), DecodePairs(pieces[1..]))
      case (Some(p), Some(rest)) => Some([p] + rest)
      case _ => None
  }

  /** Reading a form-encoded body or query back into its pairs. */
  function DecodeQuery(q: string): Option<seq<(string, string)>> {
    if q == "" then Some([]) else DecodePairs(Split(q, '&'))
  }

  /** The encoding of a character is one well-formed sequence whose code point is the character's. */
  lemma Utf8WellFormed(c: char)
    ensures var e := Utf8(c);
      SequenceLength(e[0]) == |e| && (forall k :: 1 <= k < |e| ==> IsContinuation(e[k]))
      && CodePoint(e) == c as int
  {
    var cp := c as int;
    var q1, q2 := cp / 64, cp / 64 / 64;
    assert cp == q1 * 64 + cp % 64;
    assert q1 == q2 * 64 + q1 % 64;
    assert q2 == q2 / 64 * 64 + q2 % 64;
  }

  /** Decoding one encoded character off the front of a byte sequence gives that character. */
  lemma Utf8DecodeChar(c: char, rest: seq<int>)
    ensures Utf8Decode(Utf8(c) + rest) == Cons(c, Utf8Decode(rest))
  {
    var e := Utf8(c);
    var bs := e + rest;
    Utf8WellFormed(c);
    assert bs[0] == e[0];
    assert forall k :: 1 <= k < |e| ==> bs[k] == e[k];
    assert bs[..|e|] == e && bs[|e|..] == rest;
  }

  /** UTF-8 decoding undoes UTF-8 encoding. */
  lemma {:induction false} Utf8RoundTrip(s: string)
    ensures Utf8Decode(Utf8Bytes(s)) == Some(s)
  {
    if s != [] {
      Utf8RoundTrip(s[1..]);
      Utf8DecodeChar(s[0], Utf8Bytes(s[1..]));
      assert [s[0]] + s[1..] == s;
    }
  }

  /** Unescaping one escaped byte off the front of the text gives that byte. */
  lemma UnquoteByte(b: int, rest: string)
    requires IsByte(b)
    ensures UnquoteBytes(QuoteByte(b) + rest) == Cons(b, UnquoteBytes(rest))
  {
    var e := QuoteByte(b);
    var s := e + rest;
    if IsUnreserved(b) || b == 0x20 {
      assert s[0] == e[0] && s[1..] == rest;
    } else {
      HexByte(b);
      UnquoteHex(FormatHex(b, 2), rest);
    }
  }

  /** `%XY` unescapes to the byte the two hexadecimal digits are worth. */
  lemma UnquoteHex(h: string, rest: string)
    requires |h| == 2 && AllDigitsOf(h, 16)
    ensures UnquoteBytes("%" + h + rest) == Cons(ValueOf(h, 16), UnquoteBytes(rest))
  {
    var s := "%" + h + rest;
    assert s[0] == '%' && s[1] == h[0] && s[2] == h[1] && s[3..] == rest;
    assert ValueOf(h, 16) == DigitValue(h[0]) * 16 + DigitValue(h[1]) by {
      assert h[..1][..0] == [];
      assert ValueOf(h[..1], 16) == DigitValue(h[0]);
    }
  }

  /** A byte below 256 has at most two hexadecimal digits. */
  lemma NatDigitsShort(b: nat)
    requires b < 256
    ensures |NatDigits(b, 16)| <= 2
  {
    if b >= 16 {
      assert |NatDigits(b / 16, 16)| == 1;
    }
  }

  /** Unescaping undoes escaping, byte for byte. */
  lemma {:induction false} UnquoteBytesRoundTrip(bs: seq<int>)
    requires AreBytes(bs)
    ensures UnquoteBytes(QuoteBytes(bs)) == Some(bs)
  {
    if bs != [] {
      var tail := QuoteBytes(bs[1..]);
      calc {
        UnquoteBytes(QuoteBytes(bs));
        UnquoteBytes(QuoteByte(bs[0]) + tail);
        { UnquoteByte(bs[0], tail); }
        Cons(bs[0], UnquoteBytes(tail));
        { UnquoteBytesRoundTrip(bs[1..]); }
        Cons(bs[0], Some(bs[1..]));
        { assert [bs[0]] + bs[1..] == bs; }
        Some(bs);
      }
    }
  }

  /** `quote_plus` loses nothing: its output reads back as the text it was given. */
  lemma QuotePlusRoundTrip(s: string)
    ensures UnquotePlus(QuotePlus(s)) == Some(s)
  {
    UnquoteBytesRoundTrip(Utf8Bytes(s));
    Utf8RoundTrip(s);
  }

  /** A form-encoded list of pairs reads back as exactly those pairs, in order. */
  lemma UrlEncodeRoundTrip(pairs: seq<(string, string)>)
    ensures DecodeQuery(UrlEncode(pairs)) == Some(pairs)
  {
    var pieces := seq(|pairs|, i requires 0 <= i < |pairs| => QuotePlus(pairs[i].0) + "=" + QuotePlus(pairs[i].1));
    if pairs != [] {
      assert pieces[0] != "";
      assert UrlEncode(pairs) != "" by {
        JoinStartsWith(pieces, "&");
      }
      assert forall i :: 0 <= i < |pieces| ==> '&' !in pieces[i];
      SplitJoin(pieces, '&');
      PiecesDecode(pairs, pieces);
    }
  }

  /** The first part of a join comes first in it. */
  lemma JoinStartsWith(parts: seq<string>, sep: string)
    requires |parts| >= 1
    ensures |Join(parts, sep)| >= |parts[0]|
  {
  }

  /** Each `key=value` piece decodes to its pair. */
  lemma {:induction false} PiecesDecode(pairs: seq<(string, string)>, pieces: seq<string>)
    requires |pieces| == |pairs|
    requires forall i :: 0 <= i < |pairs| ==> pieces[i] == QuotePlus(pairs[i].0) + "=" + QuotePlus(pairs[i].1)
    ensures DecodePairs(pieces) == Some(pairs)
  {
    if pairs != [] {
      PiecesDecode(pairs[1..], pieces[1..]);
      PieceDecodes(pairs[0].0, pairs[0].1);
      assert [pairs[0]] + pairs[1..] == pairs;
    }
  }

  /** One `key=value` piece decodes to its pair. */
  lemma PieceDecodes(k: string, v: string)
    ensures DecodePair(QuotePlus(k) + "=" + QuotePlus(v)) == Some((k, v))
  {
    var a, b := QuotePlus(k), QuotePlus(v);
    assert a + "=" + b == a + ['='] + b;
    SplitAt(a, '=', b);
    QuotePlusRoundTrip(k);
    QuotePlusRoundTrip(v);
  }
}
