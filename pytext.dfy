/**
 * The parts of Python's built-in text handling that the modelled code leans on:
 * `str.strip`, `str.lower`, `str.isdigit`, `str.split`, `str.replace`,
 * `str.startswith`, `str(int)`, the `X`/`d` format specifications with zero
 * padding, and `int(text, base)` for bases 10 and 16.
 *
 * Strings are sequences of Unicode scalar values, as Python's `str` is.
 */
module PyText {
  import opened Wrappers

  /** Python's `str.isspace`: the characters that `strip()` removes and `int()` skips. */
  predicate IsSpace(c: char) {
    || c == ' '
    || '\t' <= c <= '\r'
    || '\U{1c}' <= c <= '\U{1f}'
    || c == '\U{85}' || c == '\U{a0}' || c == '\U{1680}'
    || '\U{2000}' <= c <= '\U{200a}'
    || c == '\U{2028}' || c == '\U{2029}' || c == '\U{202f}' || c == '\U{205f}' || c == '\U{3000}'
  }

  /** `s.lstrip()`: drops the leading whitespace and nothing else. */
  function LStrip(s: string): string {
    if |s| > 0 && IsSpace(s[0]) then LStrip(s[1..]) else s
  }

  /** What `lstrip()` drops is a run of whitespace, and what it keeps is the rest of the text, starting with a non-space. */
  lemma {:induction false} LStripDrops(s: string)
    ensures var r := LStrip(s);
      |r| <= |s| && r == s[|s| - |r|..]
      && (r == [] || !IsSpace(r[0]))
      && forall i :: 0 <= i < |s| - |r| ==> IsSpace(s[i])
  {
    if |s| > 0 && IsSpace(s[0]) {
      LStripDrops(s[1..]);
    }
  }

  /** `s.rstrip()`: drops the trailing whitespace and nothing else. */
  function RStrip(s: string): string {
    if |s| > 0 && IsSpace(s[|s| - 1]) then RStrip(s[..|s| - 1]) else s
  }

  /** What `rstrip()` drops is a run of whitespace, and what it keeps is the start of the text, ending in a non-space. */
  lemma {:induction false} RStripDrops(s: string)
    ensures var r := RStrip(s);
      |r| <= |s| && r == s[..|r|]
      && (r == [] || !IsSpace(r[|r| - 1]))
      && forall i :: |r| <= i < |s| ==> IsSpace(s[i])
  {
    if |s| > 0 && IsSpace(s[|s| - 1]) {
      RStripDrops(s[..|s| - 1]);
    }
  }

  /** `s.strip()`. */
  function Strip(s: string): string {
    RStrip(LStrip(s))
  }

  /** `strip()` never lengthens the text and leaves no whitespace at either end. */
  lemma StripEnds(s: string)
    ensures var r := Strip(s);
      |r| <= |s| && (r == [] || (!IsSpace(r[0]) && !IsSpace(r[|r| - 1])))
  {
    LStripDrops(s);
    RStripDrops(LStrip(s));
  }

  /** A string with no whitespace at either end is its own `strip()`. */
  lemma StripUnchanged(s: string)
    requires s == [] || (!IsSpace(s[0]) && !IsSpace(s[|s| - 1]))
    ensures Strip(s) == s
  {
  }

  /** `c.lower()` on the ASCII letters; every other character is left as it is. */
  function LowerChar(c: char): char {
    if 'A' <= c <= 'Z' then (c as int + 32) as char else c
  }

  /** `s.lower()` (see `LowerChar`). */
  function Lower(s: string): string {
    seq(|s|, i requires 0 <= i < |s| => LowerChar(s[i]))
  }

  /**
   * `t` spells `word` (given in lower case) with any mix of upper- and
   * lower-case letters.
   */
  predicate SpelledAs(t: string, word: string) {
    |t| == |word| && forall i :: 0 <= i < |t| ==> t[i] == word[i] || ('a' <= word[i] <= 'z' && t[i] as int == word[i] as int - 32)
  }

  /** Lower-casing equals a lower-case word exactly when the text spells that word in any case. */
  lemma LowerIsWord(t: string, word: string)
    requires forall i :: 0 <= i < |word| ==> !('A' <= word[i] <= 'Z')
    ensures Lower(t) == word <==> SpelledAs(t, word)
  {
    if Lower(t) == word {
      forall i | 0 <= i < |t|
        ensures t[i] == word[i] || ('a' <= word[i] <= 'z' && t[i] as int == word[i] as int - 32)
      {
        assert LowerChar(t[i]) == word[i];
      }
    }
    if SpelledAs(t, word) {
      forall i | 0 <= i < |t| ensures Lower(t)[i] == word[i] {
        assert LowerChar(t[i]) == word[i];
      }
    }
  }

  /** `s.replace(c, "")`. */
  function RemoveAll(s: string, c: char): (r: string)
    ensures c !in r
    ensures c !in s ==> r == s
  {
    if s == [] then [] else (if s[0] == c then [] else [s[0]]) + RemoveAll(s[1..], c)
  }

  /** Removing a character gives the same text with one more occurrence of it anywhere. */
  lemma {:induction false} RemoveOne(a: string, b: string, c: char)
    ensures RemoveAll(a + [c] + b, c) == RemoveAll(a + b, c)
  {
    var s, t := a + [c] + b, a + b;
    if a == [] {
      assert s[0] == c && s[1..] == b && t == b;
    } else {
      assert s[0] == a[0] && s[1..] == a[1..] + [c] + b;
      assert t[0] == a[0] && t[1..] == a[1..] + b;
      RemoveOne(a[1..], b, c);
    }
  }

  /** `s.startswith(prefix)`. */
  predicate StartsWith(s: string, prefix: string) {
    |prefix| <= |s| && s[..|prefix|] == prefix
  }

  predicate IsDecimalDigit(c: char) {
    '0' <= c <= '9'
  }

  /** `s.isdigit()`, for ASCII digits: non-empty and made of digits only. */
  predicate IsDigits(s: string) {
    |s| > 0 && forall i :: 0 <= i < |s| ==> IsDecimalDigit(s[i])
  }

  /**
   * The value of a digit character as `int()` reads it: 0-9 for the decimal
   * digits, 10-35 for the letters in either case, and 36 for anything else
   * (which is no digit in any base up to 36).
   */
  function DigitValue(c: char): (d: nat)
    ensures d <= 36
  {
    if '0' <= c <= '9' then c as int - '0' as int
    else if 'a' <= c <= 'z' then c as int - 'a' as int + 10
    else if 'A' <= c <= 'Z' then c as int - 'A' as int + 10
    else 36
  }

  /** The digit character for `d`, upper-case for the hexadecimal letters. */
  function DigitChar(d: nat): (c: char)
    requires d < 16
    ensures DigitValue(c) == d
  {
    "0123456789ABCDEF"[d]
  }

  predicate IsBase(base: nat) {
    base == 10 || base == 16
  }

  /** The positional value of a digit string, most significant digit first. */
  function ValueOf(s: string, base: nat): nat {
    if s == [] then 0 else ValueOf(s[..|s| - 1], base) * base + DigitValue(s[|s| - 1])
  }

  /** Every character of `s` is a digit of `base` (so none is `_`, a sign or whitespace). */
  predicate AllDigitsOf(s: string, base: nat) {
    forall i :: 0 <= i < |s| ==> DigitValue(s[i]) < base
  }

  /** The digits of `n` in `base`, without leading zeros (`"0"` for zero). */
  function NatDigits(n: nat, base: nat): (s: string)
    requires IsBase(base)
    ensures |s| >= 1 && AllDigitsOf(s, base)
    ensures ValueOf(s, base) == n
  {
    if n < base then [DigitChar(n)]
    else
      var q := NatDigits(n / base, base);
      var s := q + [DigitChar(n % base)];
      assert s[..|s| - 1] == q;
      assert n == (n / base) * base + n % base;
      s
  }

  /** Decimal digits are what `str.isdigit` accepts. */
  lemma DecimalDigitsAreDigits(s: string)
    requires |s| >= 1 && AllDigitsOf(s, 10)
    ensures IsDigits(s)
  {
    forall i | 0 <= i < |s| ensures IsDecimalDigit(s[i]) {
      assert DigitValue(s[i]) < 10;
    }
  }

  /** `str(n)`: the decimal rendering of an integer, with a leading `-` when negative. */
  function Decimal(n: int): string {
    if n < 0 then "-" + NatDigits(-n, 10) else NatDigits(n, 10)
  }

  /** `s` left-padded with zeros to at least `width` characters. */
  function ZeroPad(s: string, width: nat): (r: string)
    ensures |r| == if |s| >= width then |s| else width
    ensures r[|r| - |s|..] == s
    ensures forall i :: 0 <= i < |r| - |s| ==> r[i] == '0'
  {
    if |s| >= width then s else seq(width - |s|, _ => '0') + s
  }

  /**
   * `format(n, "0<width>X")` (and `"X"` for width 0): upper-case hexadecimal,
   * zero-padded after the sign to `width` characters in all.
   */
  function FormatHex(n: int, width: nat): string {
    if n < 0 then "-" + ZeroPad(NatDigits(-n, 16), if width > 0 then width - 1 else 0)
    else ZeroPad(NatDigits(n, 16), width)
  }

  /**
   * What `int()` accepts after the sign and prefix: digits of `base` in groups
   * separated by single underscores, with no underscore at either end.
   */
  predicate IsDigitGroups(w: string, base: nat) {
    && |w| > 0
    && w[0] != '_' && w[|w| - 1] != '_'
    && (forall i :: 0 <= i < |w| ==> w[i] == '_' || DigitValue(w[i]) < base)
    && (forall i :: 0 <= i < |w| - 1 ==> w[i] != '_' || w[i + 1] != '_')
  }

  /** The text after an optional leading `+` or `-`. */
  function Unsigned(t: string): string {
    if |t| > 0 && (t[0] == '-' || t[0] == '+') then t[1..] else t
  }

  /** The text after the optional `0x`/`0X` prefix of base 16 and the one underscore allowed after it. */
  function Unprefixed(u: string, base: nat): string {
    if base == 16 && |u| >= 2 && u[0] == '0' && (u[1] == 'x' || u[1] == 'X') then
      (if |u| >= 3 && u[2] == '_' then u[3..] else u[2..])
    else u
  }

  /**
   * `int(s, base)` for base 10 or 16: `None` where Python raises ValueError.
   * Surrounding whitespace, one sign, the `0x` prefix in base 16 and single
   * underscores between digits are accepted.
   */
  function PyInt(s: string, base: nat): (r: Option<int>)
    requires IsBase(base)
    ensures Strip(s) == [] ==> r == None
  {
    var t := Strip(s);
    var w := Unprefixed(Unsigned(t), base);
    if IsDigitGroups(w, base) then Some(Signed(|t| > 0 && t[0] == '-', ValueOf(RemoveAll(w, '_'), base)))
    else None
  }

  /** `v` with a minus sign when `neg`. */
  function Signed(neg: bool, v: nat): int {
    if neg then -(v as int) else v
  }

  /** A plain run of digits is one digit group and holds no underscore. */
  lemma PlainDigitGroups(d: string, base: nat)
    requires IsBase(base) && |d| >= 1 && AllDigitsOf(d, base)
    ensures IsDigitGroups(d, base) && RemoveAll(d, '_') == d
  {
    assert forall i :: 0 <= i < |d| ==> d[i] != '_' by {
      forall i | 0 <= i < |d| ensures d[i] != '_' {
        assert DigitValue(d[i]) < base;
      }
    }
  }

  /** `int()` reads a stripped, unprefixed run of digits as its value, with the sign in front. */
  lemma DigitsParse(s: string, d: string, base: nat)
    requires IsBase(base) && |d| >= 1 && AllDigitsOf(d, base)
    requires Strip(s) == s && Unprefixed(Unsigned(s), base) == d
    ensures PyInt(s, base) == Some(Signed(|s| > 0 && s[0] == '-', ValueOf(d, base)))
  {
    PlainDigitGroups(d, base);
  }

  /** An optionally signed run of digits has no whitespace to strip. */
  lemma SignedDigitsStripped(neg: bool, d: string, base: nat)
    requires IsBase(base) && |d| >= 1 && AllDigitsOf(d, base)
    ensures var s := (if neg then "-" else "") + d; Strip(s) == s
  {
    var s := (if neg then "-" else "") + d;
    assert DigitValue(d[0]) < base;
    assert DigitValue(d[|d| - 1]) < base;
    assert s[|s| - 1] == d[|d| - 1];
    StripUnchanged(s);
  }

  /** The sign of an optionally signed run of digits is its `-` alone. */
  lemma SignedDigitsSign(neg: bool, d: string, base: nat)
    requires IsBase(base) && |d| >= 1 && AllDigitsOf(d, base)
    ensures var s := (if neg then "-" else "") + d; Unsigned(s) == d && (|s| > 0 && s[0] == '-' <==> neg)
  {
    var s := (if neg then "-" else "") + d;
    assert DigitValue(d[0]) < base;
    if neg {
      assert s[1..] == d;
    } else {
      assert s[0] != '-' && s[0] != '+';
    }
  }

  /** `int()` reads an optionally signed run of digits (with no `0x` in it) as its value. */
  lemma SignedDigitsParse(neg: bool, d: string, base: nat)
    requires IsBase(base) && |d| >= 1 && AllDigitsOf(d, base)
    requires Unprefixed(d, base) == d
    ensures PyInt((if neg then "-" else "") + d, base) == Some(Signed(neg, ValueOf(d, base)))
  {
    var s := (if neg then "-" else "") + d;
    SignedDigitsStripped(neg, d, base);
    SignedDigitsSign(neg, d, base);
    DigitsParse(s, d, base);
  }

  /** Only a string starting with `0x` or `0X` loses a prefix, and a run of digits never does. */
  lemma DigitsUnprefixed(d: string, base: nat)
    requires IsBase(base) && |d| >= 1 && AllDigitsOf(d, base)
    ensures Unprefixed(d, base) == d
  {
    if base == 16 && |d| >= 2 && d[0] == '0' {
      assert DigitValue(d[1]) < 16;
    }
  }

  /** Reading back what `str(n)` printed gives `n`. */
  lemma DecimalRoundTrip(n: int)
    ensures PyInt(Decimal(n), 10) == Some(n)
  {
    var d := NatDigits(if n < 0 then -n else n, 10);
    assert Decimal(n) == (if n < 0 then "-" else "") + d;
    assert Signed(n < 0, ValueOf(d, 10)) == n;
    DigitsUnprefixed(d, 10);
    SignedDigitsParse(n < 0, d, 10);
  }

  /** Reading back what `format(n, "0<width>X")` printed gives `n`, for every integer and width. */
  lemma HexRoundTrip(n: int, width: nat)
    ensures PyInt(FormatHex(n, width), 16) == Some(n)
  {
    var p := HexDigitsPart(n, width);
    DigitsUnprefixed(p, 16);
    SignedDigitsParse(n < 0, p, 16);
  }

  /** `format(n, "0<width>X")` is an optional `-` followed by hexadecimal digits worth `|n|`. */
  lemma HexDigitsPart(n: int, width: nat) returns (p: string)
    ensures FormatHex(n, width) == (if n < 0 then "-" else "") + p
    ensures |p| >= 1 && AllDigitsOf(p, 16) && Signed(n < 0, ValueOf(p, 16)) == n
  {
    if n < 0 {
      var d := NatDigits(-n, 16);
      p := ZeroPad(d, if width > 0 then width - 1 else 0);
      PaddedDigits(d, if width > 0 then width - 1 else 0, 16);
    } else {
      var d := NatDigits(n, 16);
      p := ZeroPad(d, width);
      PaddedDigits(d, width, 16);
      assert FormatHex(n, width) == p;
    }
  }

  /** Leading zeros keep a run of digits a run of digits and do not change its value. */
  lemma {:induction false} LeadingZeros(d: string, k: nat, base: nat)
    requires IsBase(base) && |d| >= 1 && AllDigitsOf(d, base)
    ensures AllDigitsOf(seq(k, _ => '0') + d, base)
    ensures ValueOf(seq(k, _ => '0') + d, base) == ValueOf(d, base)
  {
    var p := seq(k, _ => '0') + d;
    forall i | 0 <= i < |p| ensures DigitValue(p[i]) < base {
      if i >= k {
        assert p[i] == d[i - k];
      }
    }
    if k > 0 {
      var p' := seq(k - 1, _ => '0') + d;
      LeadingZeros(d, k - 1, base);
      assert p == "0" + p';
      ValueLeadingZero(p', base);
    } else {
      assert p == d;
    }
  }

  /** One leading zero does not change the value. */
  lemma {:induction false} ValueLeadingZero(s: string, base: nat)
    ensures ValueOf("0" + s, base) == ValueOf(s, base)
  {
    if s != [] {
      var t := "0" + s;
      assert t[..|t| - 1] == "0" + s[..|s| - 1];
      ValueLeadingZero(s[..|s| - 1], base);
    }
  }

  /** `format(n, "0<width>d")` of a non-negative `n`: decimal digits worth `n`, at least `width` of them. */
  lemma PaddedDecimal(n: nat, width: nat)
    ensures |ZeroPad(Decimal(n), width)| >= width
    ensures IsDigits(ZeroPad(Decimal(n), width))
    ensures ValueOf(ZeroPad(Decimal(n), width), 10) == n
  {
    var d := NatDigits(n, 10);
    assert Decimal(n) == d;
    PaddedDigits(d, width, 10);
    DecimalDigitsAreDigits(ZeroPad(d, width));
  }

  /** Zero-padding a run of digits keeps it a run of digits of the same value. */
  lemma PaddedDigits(d: string, width: nat, base: nat)
    requires IsBase(base) && |d| >= 1 && AllDigitsOf(d, base)
    ensures AllDigitsOf(ZeroPad(d, width), base) && ValueOf(ZeroPad(d, width), base) == ValueOf(d, base)
  {
    var p := ZeroPad(d, width);
    var z := |p| - |d|;
    assert p == seq(z, _ => '0') + d;
    LeadingZeros(d, z, base);
  }

  /** `sep.join(parts)`: the parts with `sep` between neighbours, `""` for no parts. */
  function Join(parts: seq<string>, sep: string): string {
    if parts == [] then ""
    else if |parts| == 1 then parts[0]
    else parts[0] + sep + Join(parts[1..], sep)
  }

  /**
   * `s.split(sep)`: the pieces between the separators, in order. The pieces
   * never contain the separator, and joining them gives `s` back (`JoinSplit`),
   * which determines them (`SplitJoin`).
   */
  function Split(s: string, sep: char): (r: seq<string>)
    ensures |r| >= 1
    ensures forall i :: 0 <= i < |r| ==> sep !in r[i]
  {
    if s == [] then [""]
    else
      var rest := Split(s[1..], sep);
      if s[0] == sep then [""] + rest
      else
        var r := [[s[0]] + rest[0]] + rest[1..];
        assert r[1..] == rest[1..];
        r
  }

  /** Joining the pieces with the separator gives the text back. */
  lemma {:induction false} JoinSplit(s: string, sep: char)
    ensures Join(Split(s, sep), [sep]) == s
  {
    if s != [] {
      var rest := Split(s[1..], sep);
      JoinSplit(s[1..], sep);
      if s[0] == sep {
        assert Split(s, sep) == [""] + rest;
        assert Join([""] + rest, [sep]) == "" + [sep] + Join(rest, [sep]);
        assert s == [sep] + s[1..];
      } else {
        var r := [[s[0]] + rest[0]] + rest[1..];
        assert Split(s, sep) == r && r[0] == [s[0]] + rest[0] && r[1..] == rest[1..];
        if |rest| == 1 {
          assert Join(r, [sep]) == [s[0]] + rest[0] == [s[0]] + Join(rest, [sep]);
        } else {
          assert Join(r, [sep]) == [s[0]] + rest[0] + [sep] + Join(rest[1..], [sep]);
          assert Join(rest, [sep]) == rest[0] + [sep] + Join(rest[1..], [sep]);
        }
        assert s == [s[0]] + s[1..];
      }
    }
  }

  /** Splitting text that holds no separator gives the text itself. */
  lemma {:induction false} SplitNone(a: string, sep: char)
    requires sep !in a
    ensures Split(a, sep) == [a]
  {
    if a != [] {
      SplitNone(a[1..], sep);
      assert a[0] != sep && [a[0]] + a[1..] == a;
    }
  }

  /** A separator after a separator-free piece splits that piece off. */
  lemma {:induction false} SplitFirst(a: string, sep: char, b: string)
    requires sep !in a
    ensures Split(a + [sep] + b, sep) == [a] + Split(b, sep)
  {
    if a != [] {
      var t := a[1..] + [sep] + b;
      SplitFirst(a[1..], sep, b);
      var rest := Split(t, sep);
      assert rest[0] == a[1..] && rest[1..] == Split(b, sep);
      assert a + [sep] + b == [a[0]] + t;
      SplitCons(a[0], t, sep);
      assert [a[0]] + a[1..] == a;
    } else {
      assert (a + [sep] + b)[1..] == b;
    }
  }

  /** A character other than the separator joins the first piece. */
  lemma SplitCons(c: char, t: string, sep: char)
    requires c != sep
    ensures Split([c] + t, sep) == [[c] + Split(t, sep)[0]] + Split(t, sep)[1..]
  {
    assert ([c] + t)[1..] == t;
  }

  /** Text with one separator between two separator-free pieces splits into those two pieces. */
  lemma SplitAt(a: string, sep: char, b: string)
    requires sep !in a && sep !in b
    ensures Split(a + [sep] + b, sep) == [a, b]
  {
    SplitFirst(a, sep, b);
    SplitNone(b, sep);
  }

  /** Splitting a join of separator-free pieces gives back the pieces. */
  lemma {:induction false} SplitJoin(parts: seq<string>, sep: char)
    requires |parts| >= 1
    requires forall i :: 0 <= i < |parts| ==> sep !in parts[i]
    ensures Split(Join(parts, [sep]), sep) == parts
  {
    if |parts| == 1 {
      SplitNone(parts[0], sep);
    } else {
      SplitJoin(parts[1..], sep);
      SplitFirst(parts[0], sep, Join(parts[1..], [sep]));
    }
  }
}
