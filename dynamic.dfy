/**
 * The loosely typed values the time-server client works with: whatever a JSON
 * body decodes to, what the state file holds, and the failure marker the HTTP
 * layer returns. Python's `bool()`, `str()` and `repr()` on them are modelled
 * here because the client and the command-line tool coerce with them.
 */
module Dynamic {
  import opened Wrappers
  import opened PyText

  /**
   * A decoded JSON value. An object is its items in insertion order (keys are
   * distinct, as `json.loads` yields them). Floating-point numbers are not
   * modelled.
   */
  datatype Json =
    | Null
    | Bool(b: bool)
    | Int(i: int)
    | Str(s: string)
    | Arr(items: seq<Json>)
    | Obj(fields: seq<(string, Json)>)

  /**
   * The failure marker of the HTTP layer: Python's `False`. It is the very
   * value a JSON `false` body decodes to, and `resp is False` cannot tell the
   * two apart.
   */
  const FailureMarker: Json := Bool(false)

  /** `key in d` for a decoded object. */
  predicate HasKey(fields: seq<(string, Json)>, key: string) {
    exists i :: 0 <= i < |fields| && fields[i].0 == key
  }

  /** `d[key]`: the value stored under `key`, `None` where Python raises KeyError. */
  function Get(fields: seq<(string, Json)>, key: string): (r: Option<Json>)
    ensures r.Some? <==> HasKey(fields, key)
    ensures r.Some? ==> exists i :: 0 <= i < |fields| && fields[i] == (key, r.value)
  {
    if fields == [] then None
    else if fields[0].0 == key then Some(fields[0].1)
    else
      var r := Get(fields[1..], key);
      assert HasKey(fields[1..], key) ==> HasKey(fields, key) by {
        if HasKey(fields[1..], key) {
          var i :| 0 <= i < |fields[1..]| && fields[1..][i].0 == key;
          assert fields[i + 1].0 == key;
        }
      }
      assert HasKey(fields, key) ==> HasKey(fields[1..], key) by {
        if HasKey(fields, key) {
          var i :| 0 <= i < |fields| && fields[i].0 == key;
          assert i > 0 && fields[1..][i - 1].0 == key;
        }
      }
      r
  }

  /**
   * The value under the first of `keys` that the object holds, as the loops
   * `for k in keys: if k in resp: return ...resp[k]` choose it.
   */
  function FirstPresent(fields: seq<(string, Json)>, keys: seq<string>): (r: Option<Json>)
    ensures r.None? <==> forall j :: 0 <= j < |keys| ==> !HasKey(fields, keys[j])
    ensures r.Some? ==>
      exists j :: 0 <= j < |keys| && Get(fields, keys[j]) == r && forall j' :: 0 <= j' < j ==> !HasKey(fields, keys[j'])
  {
    if keys == [] then None
    else if HasKey(fields, keys[0]) then Get(fields, keys[0])
    else
      var r := FirstPresent(fields, keys[1..]);
      if r.Some? then
        var j :| 0 <= j < |keys[1..]| && Get(fields, keys[1..][j]) == r
          && forall j' :: 0 <= j' < j ==> !HasKey(fields, keys[1..][j']);
        assert Get(fields, keys[j + 1]) == r;
        assert forall j' :: 0 <= j' < j + 1 ==> !HasKey(fields, keys[j'])  by {
          forall j' | 0 <= j' < j + 1 ensures !HasKey(fields, keys[j']) {
            if j' > 0 {
              assert keys[j'] == keys[1..][j' - 1];
            }
          }
        }
        r
      else
        assert forall j :: 0 <= j < |keys| ==> !HasKey(fields, keys[j]) by {
          forall j | 0 <= j < |keys| ensures !HasKey(fields, keys[j]) {
            if j > 0 {
              assert keys[j] == keys[1..][j - 1];
            }
          }
        }
        r
  }

  /** Python's truth value `bool(v)`: false for `None`, `False`, zero and empty text, lists and objects. */
  predicate Truthy(v: Json) {
    match v
    case Null => false
    case Bool(b) => b
    case Int(i) => i != 0
    case Str(s) => s != []
    case Arr(items) => items != []
    case Obj(fields) => fields != []
  }

  /** `len(v)` for a list or an object, and 0 for anything else (the callers' `if isinstance(...) else 0`). */
  function Length(v: Json): nat {
    match v
    case Arr(items) => |items|
    case Obj(fields) => |fields|
    case _ => 0
  }

  /**
   * The characters `repr()` escapes besides the quote and the backslash, as
   * CPython 3.11 classifies them (Unicode 14.0): the controls (Cc), the format
   * characters (Cf), the private-use characters (Co), and every separator
   * (Zs, Zl, Zp) except the plain space.
   */
  predicate NotPrintable(c: char) {
    || c < ' ' || '\U{7f}' <= c <= '\U{a0}' || c == '\U{ad}'
    || '\U{600}' <= c <= '\U{605}' || c == '\U{61c}' || c == '\U{6dd}' || c == '\U{70f}'
    || '\U{890}' <= c <= '\U{891}' || c == '\U{8e2}' || c == '\U{1680}' || c == '\U{180e}'
    || '\U{2000}' <= c <= '\U{200f}' || '\U{2028}' <= c <= '\U{202f}' || '\U{205f}' <= c <= '\U{2064}'
    || '\U{2066}' <= c <= '\U{206f}' || c == '\U{3000}' || '\U{e000}' <= c <= '\U{f8ff}' || c == '\U{feff}'
    || '\U{fff9}' <= c <= '\U{fffb}' || c == '\U{110bd}' || c == '\U{110cd}' || '\U{13430}' <= c <= '\U{13438}'
    || '\U{1bca0}' <= c <= '\U{1bca3}' || '\U{1d173}' <= c <= '\U{1d17a}' || c == '\U{e0001}'
    || '\U{e0020}' <= c <= '\U{e007f}' || '\U{f0000}' <= c <= '\U{ffffd}' || '\U{100000}' <= c <= '\U{10fffd}'
  }

  /** `n` as `width` lower-case hex digits, as the escapes write it. */
  function HexEscapeDigits(n: nat, width: nat): string {
    Lower(ZeroPad(NatDigits(n, 16), width))
  }

  /**
   * How `repr()` writes one character inside quotes `q`: the quote and the
   * backslash escaped, tab, newline and carriage return by name, and the other
   * characters it does not print as `\xhh` below U+0100, `\uhhhh` below
   * U+10000 and `\Uhhhhhhhh` above.
   */
  function EscapeChar(c: char, q: char): string {
    if c == q || c == '\\' then ['\\', c]
    else if c == '\t' then "\\t"
    else if c == '\n' then "\\n"
    else if c == '\r' then "\\r"
    else if NotPrintable(c) then
      if c as int < 0x100 then "\\x" + HexEscapeDigits(c as int, 2)
      else if c as int < 0x1_0000 then "\\u" + HexEscapeDigits(c as int, 4)
      else "\\U" + HexEscapeDigits(c as int, 8)
    else [c]
  }

  /** `repr(s)` of a string: single quotes unless the text holds a single quote and no double quote. */
  function ReprString(s: string): string {
    var q := if '\'' in s && '"' !in s then '"' else '\'';
    [q] + EscapeAll(s, q) + [q]
  }

  function EscapeAll(s: string, q: char): string {
    if s == [] then "" else EscapeChar(s[0], q) + EscapeAll(s[1..], q)
  }

  /** The line separator U+2028 is written as its `\u` escape: `repr('\u2028')` is `'\u2028'`. */
  lemma ReprLineSeparator()
    ensures ReprString("\U{2028}") == "'\\u2028'"
  {
    LineSeparatorDigits();
    assert NotPrintable('\U{2028}');
    assert EscapeChar('\U{2028}', '\'') == "\\u2028";
    assert EscapeAll("\U{2028}", '\'') == EscapeChar('\U{2028}', '\'');
  }

  lemma LineSeparatorDigits()
    ensures HexEscapeDigits(0x2028, 4) == "2028"
  {
    assert NatDigits(0x2, 16) == "2";
    assert NatDigits(0x20, 16) == "20";
    assert NatDigits(0x202, 16) == "202";
    assert NatDigits(0x2028, 16) == "2028";
    assert ZeroPad("2028", 4) == "2028";
  }

  /** `repr(v)`. */
  function Repr(v: Json): string {
    match v
    case Null => "None"
    case Bool(b) => if b then "True" else "False"
    case Int(i) => Decimal(i)
    case Str(s) => ReprString(s)
    case Arr(items) =>
      "[" + Join(seq(|items|, k requires 0 <= k < |items| => Repr(items[k])), ", ") + "]"
    case Obj(fields) =>
      "{" + Join(seq(|fields|, k requires 0 <= k < |fields| => ReprString(fields[k].0) + ": " + Repr(fields[k].1)), ", ") + "}"
  }

  /** `str(v)`: text stands for itself, everything else is written as `repr` writes it. */
  function PyStr(v: Json): string {
    if v.Str? then v.s else Repr(v)
  }
}
