/**
 * Base64 as the display tool uses it through Python's `base64` module: the
 * encoder of section 4 of RFC 4648 (standard alphabet, `=` padding) and the
 * lenient decoder that `b64decode` runs by default, which skips characters
 * outside the alphabet and stops at the first completed padding.
 */
module Base64 {
  import opened Wrappers
  import opened FormEncoding

  /** The character for a six-bit value, from the alphabet of RFC 4648 (table 1). */
  function AlphabetChar(v: int): (c: char)
    requires 0 <= v < 64
    ensures c != '=' && (c as int) < 128
  {
    if v < 26 then ('A' as int + v) as char
    else if v < 52 then ('a' as int + (v - 26)) as char
    else if v < 62 then ('0' as int + (v - 52)) as char
    else if v == 62 then '+'
    else '/'
  }

  /** The six-bit value of an alphabet character, and 64 for every other character. */
  function SextetOf(c: char): (v: int)
    ensures 0 <= v <= 64
  {
    if 'A' <= c <= 'Z' then c as int - 'A' as int
    else if 'a' <= c <= 'z' then c as int - 'a' as int + 26
    else if '0' <= c <= '9' then c as int - '0' as int + 52
    else if c == '+' then 62
    else if c == '/' then 63
    else 64
  }

  /** Reading an alphabet character gives back the value it was written for. */
  lemma AlphabetInverse(v: int)
    requires 0 <= v < 64
    ensures SextetOf(AlphabetChar(v)) == v
  {
  }

  /** A character `b64encode` may write: one of the alphabet, or the padding `=`; all of them ASCII. */
  predicate EncodedChar(c: char) {
    (c as int) < 128 && (c == '=' || SextetOf(c) < 64)
  }

  /** Three bytes as four characters: their 24 bits, most significant first, six at a time. */
  function Group(a: int, b: int, c: int): (s: string)
    requires IsByte(a) && IsByte(b) && IsByte(c)
    ensures |s| == 4 && forall i :: 0 <= i < 4 ==> EncodedChar(s[i])
  {
    AlphabetInverse(a / 4);
    AlphabetInverse(a % 4 * 16 + b / 16);
    AlphabetInverse(b % 16 * 4 + c / 64);
    AlphabetInverse(c % 64);
    [AlphabetChar(a / 4), AlphabetChar(a % 4 * 16 + b / 16), AlphabetChar(b % 16 * 4 + c / 64), AlphabetChar(c % 64)]
  }

  /** The last one or two bytes, padded with `==` or `=` to four characters. */
  function Tail(bs: seq<int>): (s: string)
    requires AreBytes(bs) && 1 <= |bs| <= 2
    ensures |s| == 4 && forall i :: 0 <= i < 4 ==> EncodedChar(s[i])
  {
    var a := bs[0];
    AlphabetInverse(a / 4);
    if |bs| == 1 then
      AlphabetInverse(a % 4 * 16);
      [AlphabetChar(a / 4), AlphabetChar(a % 4 * 16), '=', '=']
    else
      AlphabetInverse(a % 4 * 16 + bs[1] / 16);
      AlphabetInverse(bs[1] % 16 * 4);
      [AlphabetChar(a / 4), AlphabetChar(a % 4 * 16 + bs[1] / 16), AlphabetChar(bs[1] % 16 * 4), '=']
  }

  lemma EncodedLength(n: int)
    requires n >= 3
    ensures (n + 2) / 3 * 4 == 4 + (n - 1) / 3 * 4
  {
  }

  /** `b64encode`: whole groups of three bytes, then a last one or two bytes padded with `==` or `=`. */
  function Encode(bs: seq<int>): (s: string)
    requires AreBytes(bs)
    ensures |s| == (|bs| + 2) / 3 * 4
    ensures forall i :: 0 <= i < |s| ==> EncodedChar(s[i])
    decreases |bs|
  {
    if |bs| == 0 then ""
    else if |bs| <= 2 then Tail(bs)
    else
      EncodedLength(|bs|);
      Group(bs[0], bs[1], bs[2]) + Encode(bs[3..])
  }

  /** Every character is ASCII; `b64decode` raises ValueError for a text with any other. */
  predicate IsAscii(s: string) {
    forall i :: 0 <= i < |s| ==> (s[i] as int) < 128
  }

  /** The bits still to be output after `quad` data characters of a group: 6, 4, 2 of them, none at a group boundary. */
  predicate Pending(quad: int, left: int) {
    match quad
    case 0 => left == 0
    case 1 => 0 <= left < 64
    case 2 => 0 <= left < 16
    case 3 => 0 <= left < 4
    case _ => false
  }

  /**
   * The decoding loop of `a2b_base64` in lenient mode, from a state: `quad`
   * data characters of the current group read, `left` their bits not yet
   * output, `pads` the padding characters counted so far. A padding character
   * counts only after two data characters of a group and ends the decoding
   * once it completes the group; a character outside the alphabet is
   * skipped. `None` stands for `binascii.Error`: the input ends inside a group.
   */
  function Run(s: string, quad: int, left: int, pads: int): (r: Option<seq<int>>)
    requires Pending(quad, left)
    ensures r.Some? ==> AreBytes(r.value)
    decreases |s|
  {
    if s == [] then (if quad == 0 then Some([]) else None)
    else if s[0] == '=' then
      if quad >= 2 && quad + pads + 1 >= 4 then Some([])
      else Run(s[1..], quad, left, if quad >= 2 then pads + 1 else pads)
    else
      var v := SextetOf(s[0]);
      if v == 64 then Run(s[1..], quad, left, pads)
      else if quad == 0 then Run(s[1..], 1, v, 0)
      else if quad == 1 then Cons(left * 4 + v / 16, Run(s[1..], 2, v % 16, 0))
      else if quad == 2 then Cons(left * 16 + v / 4, Run(s[1..], 3, v % 4, 0))
      else Cons(left * 64 + v, Run(s[1..], 0, 0, 0))
  }

  /** `b64decode(s)` of a text; `None` where Python raises. */
  function Decode(s: string): (r: Option<seq<int>>)
    ensures r.Some? ==> AreBytes(r.value)
    ensures !IsAscii(s) ==> r.None?
  {
    if IsAscii(s) then Run(s, 0, 0, 0) else None
  }

  /** The decoding loop on a data character, group position by group position. */
  lemma DataStep(s: string, quad: int, left: int)
    requires s != [] && s[0] != '=' && SextetOf(s[0]) < 64 && Pending(quad, left)
    ensures var v := SextetOf(s[0]);
      Run(s, quad, left, 0) ==
        if quad == 0 then Run(s[1..], 1, v, 0)
        else if quad == 1 then Cons(left * 4 + v / 16, Run(s[1..], 2, v % 16, 0))
        else if quad == 2 then Cons(left * 16 + v / 4, Run(s[1..], 3, v % 4, 0))
        else Cons(left * 64 + v, Run(s[1..], 0, 0, 0))
  {
  }

  /** The four characters of a group decode to its three bytes. */
  lemma GroupDecodes(a: int, b: int, c: int, rest: string)
    requires IsByte(a) && IsByte(b) && IsByte(c)
    ensures Run(Group(a, b, c) + rest, 0, 0, 0) == Cons(a, Cons(b, Cons(c, Run(rest, 0, 0, 0))))
  {
    var v0, v1, v2, v3 := a / 4, a % 4 * 16 + b / 16, b % 16 * 4 + c / 64, c % 64;
    AlphabetInverse(v0);
    AlphabetInverse(v1);
    AlphabetInverse(v2);
    AlphabetInverse(v3);
    var s0 := Group(a, b, c) + rest;
    var s1, s2, s3 := s0[1..], s0[2..], s0[3..];
    assert s0[0] == AlphabetChar(v0) && s1[0] == AlphabetChar(v1) && s2[0] == AlphabetChar(v2) && s3[0] == AlphabetChar(v3);
    assert s1 == s0[1..] && s2 == s1[1..] && s3 == s2[1..] && rest == s3[1..];
    assert v1 / 16 == a % 4 && v1 % 16 == b / 16;
    assert v2 / 4 == b % 16 && v2 % 4 == c / 64;
    DataStep(s3, 3, c / 64);
    DataStep(s2, 2, b / 16);
    DataStep(s1, 1, v0);
    DataStep(s0, 0, 0);
  }

  /** The last one or two bytes, with their padding, decode to those bytes. */
  lemma TailDecodes(bs: seq<int>)
    requires AreBytes(bs) && 1 <= |bs| <= 2
    ensures Run(Tail(bs), 0, 0, 0) == Some(bs)
  {
    if |bs| == 1 {
      OneDecodes(bs);
    } else {
      TwoDecodes(bs);
    }
  }

  /** One byte, padded with `==`, decodes to that byte. */
  lemma OneDecodes(bs: seq<int>)
    requires AreBytes(bs) && |bs| == 1
    ensures Run(Tail(bs), 0, 0, 0) == Some(bs)
  {
    var a := bs[0];
    var s0 := Tail(bs);
    var s1 := s0[1..];
    var v0, v1 := a / 4, a % 4 * 16;
    AlphabetInverse(v0);
    AlphabetInverse(v1);
    assert s0[0] == AlphabetChar(v0);
    assert s1 == [AlphabetChar(v1), '=', '='] && s1[1..] == "==";
    assert Run("==", 2, 0, 0) == Some([]) by {
      assert "=="[1..] == "=";
      assert Run("=", 2, 0, 1) == Some([]);
    }
    assert v1 / 16 == a % 4 && v1 % 16 == 0;
    DataStep(s1, 1, v0);
    DataStep(s0, 0, 0);
    assert [a] + [] == bs;
  }

  /** Two bytes, padded with `=`, decode to those bytes. */
  lemma TwoDecodes(bs: seq<int>)
    requires AreBytes(bs) && |bs| == 2
    ensures Run(Tail(bs), 0, 0, 0) == Some(bs)
  {
    var a, b := bs[0], bs[1];
    var s0 := Tail(bs);
    var s1 := s0[1..];
    var s2 := s1[1..];
    var v0, v1, v2 := a / 4, a % 4 * 16 + b / 16, b % 16 * 4;
    AlphabetInverse(v0);
    AlphabetInverse(v1);
    AlphabetInverse(v2);
    assert s0[0] == AlphabetChar(v0);
    assert s1 == [AlphabetChar(v1), AlphabetChar(v2), '='];
    assert s2 == [AlphabetChar(v2), '='] && s2[1..] == "=";
    assert v1 / 16 == a % 4 && v1 % 16 == b / 16;
    assert v2 / 4 == b % 16 && v2 % 4 == 0;
    assert Run("=", 3, 0, 0) == Some([]);
    DataStep(s2, 2, b / 16);
    DataStep(s1, 1, v0);
    DataStep(s0, 0, 0);
    assert [a] + ([b] + []) == bs;
  }

  /** Decoding what `b64encode` wrote gives back the bytes. */
  lemma {:induction false} RoundTrip(bs: seq<int>)
    requires AreBytes(bs)
    ensures Decode(Encode(bs)) == Some(bs)
    decreases |bs|
  {
    RunRoundTrip(bs);
  }

  lemma {:induction false} RunRoundTrip(bs: seq<int>)
    requires AreBytes(bs)
    ensures Run(Encode(bs), 0, 0, 0) == Some(bs)
    decreases |bs|
  {
    if |bs| == 0 {
    } else if |bs| <= 2 {
      TailDecodes(bs);
    } else {
      RunRoundTrip(bs[3..]);
      GroupDecodes(bs[0], bs[1], bs[2], Encode(bs[3..]));
      assert Encode(bs) == Group(bs[0], bs[1], bs[2]) + Encode(bs[3..]);
      assert bs == [bs[0]] + ([bs[1]] + ([bs[2]] + bs[3..]));
    }
  }

  /** A padded group decodes to its byte, also with a character outside the alphabet inside it. */
  lemma LenientDecoding()
    ensures Decode("AA==") == Some([0])
    ensures Decode("A A==") == Some([0])
  {
    assert Run("=", 2, 0, 1) == Some([]);
    assert Run("==", 2, 0, 0) == Some([]) by {
      assert "=="[1..] == "=";
    }
    assert Run("A==", 1, 0, 0) == Cons(0, Run("==", 2, 0, 0)) by {
      assert "A=="[1..] == "==";
    }
    assert Run("AA==", 0, 0, 0) == Run("A==", 1, 0, 0) by {
      assert "AA=="[1..] == "A==";
    }
    assert Run(" A==", 1, 0, 0) == Run("A==", 1, 0, 0) by {
      assert " A=="[1..] == "A==";
    }
    assert Run("A A==", 0, 0, 0) == Run(" A==", 1, 0, 0) by {
      assert "A A=="[1..] == " A==";
    }
    assert [0] + [] == [0];
  }

  /** Whatever follows a completed padding is ignored. */
  lemma StopsAtPadding(rest: string)
    requires IsAscii(rest)
    ensures Decode("AA==" + rest) == Some([0])
  {
    var s := "AA==" + rest;
    assert s[1..] == "A==" + rest && s[2..] == "==" + rest && s[3..] == "=" + rest;
    assert s[1..][1..] == s[2..] && s[2..][1..] == s[3..];
    assert Run(s[3..], 2, 0, 1) == Some([]);
    assert Run(s[2..], 2, 0, 0) == Some([]);
    assert Run(s[1..], 1, 0, 0) == Cons(0, Run(s[2..], 2, 0, 0));
    assert Run(s, 0, 0, 0) == Run(s[1..], 1, 0, 0);
    assert [0] + [] == [0];
  }

  /** Decoding fails when the data ends inside a group. */
  lemma TruncatedDecoding()
    ensures Decode("A").None? && Decode("AA").None? && Decode("AA=").None?
  {
    assert "AA"[1..] == "A" && "AA="[1..] == "A=" && "A="[1..] == "=";
  }
}
