/**
 * The frame format of the flip-dot display editor (`display_tool.py`): how
 * `get_buffer` packs the drawing into bytes, the text line `export_frame`
 * writes, how `load_frame` reads that line back, and where every bit it
 * unpacks lands.
 *
 * The drawing is `DispHeight` rows of `screens · DispWidthUnit` cells. Each
 * screen's part of a row is 28 cells, packed least significant bit first
 * into 4 bytes; the top 4 bits of the fourth byte are padding.
 */
module FrameCodec {
  import opened Wrappers
  import opened PyText
  import opened FormEncoding
  import opened Base64

  const DispWidthUnit: nat := 28
  const DispHeight: nat := 19
  const BytesPerDisplayRow: nat := 4
  const Cmd: nat := 0x01

  /* ---------------------------------------------------------------------- */
  /* The drawing                                                             */
  /* ---------------------------------------------------------------------- */

  /** `DispHeight` rows of `width` cells each. */
  predicate IsGrid(d: seq<seq<int>>, width: nat) {
    |d| == DispHeight && forall y :: 0 <= y < |d| ==> |d[y]| == width
  }

  /** A grid whose every cell is 0 or 1, as the editor keeps it. */
  predicate IsBitGrid(d: seq<seq<int>>, width: nat) {
    IsGrid(d, width) && forall y, x :: 0 <= y < |d| && 0 <= x < |d[y]| ==> 0 <= d[y][x] <= 1
  }

  /** The grid of `width` columns with every cell `v` (the list comprehensions of `clear`, `fill` and `change_screens`). */
  function Uniform(width: nat, v: int): (d: seq<seq<int>>)
    ensures IsGrid(d, width)
    ensures forall y, x :: 0 <= y < DispHeight && 0 <= x < width ==> d[y][x] == v
  {
    seq(DispHeight, _ => seq(width, _ => v))
  }

  /* ---------------------------------------------------------------------- */
  /* Bits                                                                    */
  /* ---------------------------------------------------------------------- */

  /** `1 << k`. */
  function Pow2(k: nat): nat {
    if k == 0 then 1 else 2 * Pow2(k - 1)
  }

  /** `(v >> i) & 1`: bit `i` of `v`. */
  function Bit(v: nat, i: nat): (r: nat)
    ensures r <= 1
  {
    if i == 0 then v % 2 else Bit(v / 2, i - 1)
  }

  /** The number whose bits, least significant first, are `bits`. */
  function ByteOf(bits: seq<bool>): nat {
    if bits == [] then 0 else (if bits[0] then 1 else 0) + 2 * ByteOf(bits[1..])
  }

  lemma {:induction false} BitOfZero(i: nat)
    ensures Bit(0, i) == 0
  {
    if i > 0 {
      BitOfZero(i - 1);
    }
  }

  /** Bit `i` of the number built from `bits` is `bits[i]`, and 0 past them. */
  lemma {:induction false} ByteOfBits(bits: seq<bool>, i: nat)
    ensures Bit(ByteOf(bits), i) == if i < |bits| && bits[i] then 1 else 0
    decreases |bits|
  {
    if bits == [] {
      BitOfZero(i);
    } else {
      var h, t := if bits[0] then 1 else 0, ByteOf(bits[1..]);
      DivMod(ByteOf(bits), 2, t, h);
      if i > 0 {
        ByteOfBits(bits[1..], i - 1);
        assert i < |bits| ==> bits[1..][i - 1] == bits[i];
      }
    }
  }

  /** Setting the next higher bit adds its power of two (`byte |= 1 << bit_index` on a clear bit). */
  lemma {:induction false} ByteOfSnoc(bits: seq<bool>, b: bool)
    ensures ByteOf(bits + [b]) == ByteOf(bits) + if b then Pow2(|bits|) else 0
    decreases |bits|
  {
    if bits == [] {
      assert ([] + [b])[1..] == [];
    } else {
      assert (bits + [b])[1..] == bits[1..] + [b];
      ByteOfSnoc(bits[1..], b);
    }
  }

  /** `bits` make a number below `2^|bits|`. */
  lemma {:induction false} ByteOfBound(bits: seq<bool>)
    ensures ByteOf(bits) < Pow2(|bits|)
    decreases |bits|
  {
    if bits != [] {
      ByteOfBound(bits[1..]);
    }
  }

  lemma ByteSize()
    ensures Pow2(8) == 256
  {
    assert Pow2(4) == 16;
  }

  /* ---------------------------------------------------------------------- */
  /* Index arithmetic                                                        */
  /* ---------------------------------------------------------------------- */

  lemma {:induction false} MulAtLeast(d: int, m: int)
    requires d >= 0 && m >= 1
    ensures d * m >= d
    decreases m
  {
    if m > 1 {
      MulAtLeast(d, m - 1);
      assert d * m == d * (m - 1) + d;
    }
  }

  lemma MulMonotone(d: int, a: int, b: int)
    requires d >= 0 && a <= b
    ensures d * a <= d * b
  {
    if a < b {
      MulAtLeast(d, b - a);
      assert d * b == d * (b - a) + d * a;
    }
  }

  /** Division with remainder is unique. */
  lemma Unique(d: int, q1: int, r1: int, q2: int, r2: int)
    requires d > 0 && 0 <= r1 < d && 0 <= r2 < d && d * q1 + r1 == d * q2 + r2
    ensures q1 == q2 && r1 == r2
  {
    if q1 > q2 {
      MulMonotone(d, q2 + 1, q1);
    } else if q1 < q2 {
      MulMonotone(d, q1 + 1, q2);
    }
  }

  lemma DivMod(k: int, d: int, q: int, r: int)
    requires d > 0 && 0 <= r < d && k == d * q + r
    ensures k / d == q && k % d == r
  {
    Unique(d, k / d, k % d, q, r);
  }

  /** Byte `b` of screen `s` in display row `y` is byte `(y·n + s)·4 + b` of the buffer, and that index names it back. */
  lemma ByteIndex(n: nat, y: nat, s: nat, b: nat)
    requires s < n && b < 4
    ensures var k := (y * n + s) * 4 + b;
      k / (4 * n) == y && k / 4 % n == s && k % 4 == b
  {
    var k := (y * n + s) * 4 + b;
    DivMod(k, 4, y * n + s, b);
    DivMod(y * n + s, n, y, s);
    DivMod(k, 4 * n, y, 4 * s + b);
  }

  /** Every buffer index names a display row, a screen and a byte. */
  lemma IndexBounds(n: nat, k: nat)
    requires n >= 1 && k < DispHeight * 4 * n
    ensures 4 * n > 0 && 0 <= k / (4 * n) < DispHeight && k / 4 % n < n && k % 4 < 4
  {
    var m := 4 * n;
    var q, r := k / m, k % m;
    assert k == m * q + r && 0 <= r < m;
    if q < 0 {
      MulMonotone(m, q, -1);
    } else if q >= DispHeight {
      MulMonotone(m, DispHeight, q);
    }
  }

  /** The display row buffer index `k` belongs to. */
  function RowOf(n: nat, k: nat): (y: nat)
    requires n >= 1 && k < DispHeight * 4 * n
    ensures y < DispHeight
  {
    IndexBounds(n, k);
    k / (4 * n)
  }

  /** The screen buffer index `k` belongs to; its 28 columns fit in a row of `n` screens. */
  function ScreenOf(n: nat, k: nat): (s: nat)
    requires n >= 1
    ensures s < n && (s + 1) * DispWidthUnit <= n * DispWidthUnit
  {
    ScreenFits(k / 4 % n, n);
    k / 4 % n
  }

  /** A screen index below the screen count leaves room for the screen's 28 columns. */
  lemma ScreenFits(s: nat, n: nat)
    requires s < n
    ensures (s + 1) * DispWidthUnit <= n * DispWidthUnit
  {
    MulMonotone(DispWidthUnit, s + 1, n);
  }

  /* ---------------------------------------------------------------------- */
  /* get_buffer                                                              */
  /* ---------------------------------------------------------------------- */

  /** The cells `from .. from + count - 1` of a row as bits: a cell is set when it is not 0. */
  function CellBits(row: seq<int>, from: nat, count: nat): (bits: seq<bool>)
    requires from + count <= |row|
    ensures |bits| == count
  {
    seq(count, i requires 0 <= i < count => row[from + i] != 0)
  }

  lemma CellBitsSnoc(row: seq<int>, from: nat, count: nat)
    requires from + count < |row|
    ensures CellBits(row, from, count + 1) == CellBits(row, from, count) + [row[from + count] != 0]
  {
  }

  /** How many of a screen's 28 columns byte `b` holds: 8, 8, 8, then 4. */
  function ByteSpan(b: nat): nat {
    if b < 3 then 8 else 4
  }

  /** Byte `b` of screen `s` in a display row: its columns from `s·28 + 8b`, least significant bit first. */
  function PackedByte(row: seq<int>, s: nat, b: nat): (v: nat)
    requires b < 4 && (s + 1) * DispWidthUnit <= |row|
    ensures v < 256
  {
    var bits := CellBits(row, s * DispWidthUnit + 8 * b, ByteSpan(b));
    ByteOfBound(bits);
    ByteSize();
    assert Pow2(ByteSpan(b)) <= 256 by {
      assert Pow2(4) == 16;
    }
    ByteOf(bits)
  }

  /** Buffer byte `k`: byte `k % 4` of screen `k / 4 % n` in display row `k / (4n)`. */
  function BufferByte(d: seq<seq<int>>, n: nat, k: nat): (v: nat)
    requires n >= 1 && IsGrid(d, n * DispWidthUnit) && k < DispHeight * 4 * n
    ensures v < 256
  {
    var y := RowOf(n, k);
    assert |d[y]| == n * DispWidthUnit;
    PackedByte(d[y], ScreenOf(n, k), k % 4)
  }

  /** What `get_buffer` returns: display rows top to bottom, in each the screens left to right, 4 bytes each. */
  function Buffer(d: seq<seq<int>>, n: nat): (buf: seq<int>)
    requires n >= 1 && IsGrid(d, n * DispWidthUnit)
    ensures |buf| == DispHeight * BytesPerDisplayRow * n
    ensures AreBytes(buf)
  {
    seq(DispHeight * 4 * n, k requires 0 <= k < DispHeight * 4 * n => BufferByte(d, n, k) as int)
  }

  /** Buffer prefixes end inside the buffer. */
  lemma PrefixFits(n: nat, y: nat, s: nat, b: nat)
    requires y < DispHeight && s < n && b <= 4
    ensures (y * n + s) * 4 + b <= DispHeight * 4 * n
  {
    MulMonotone(n, y + 1, DispHeight);
    assert (y + 1) * n == y * n + n;
  }

  /** Byte `b` of screen `s` in display row `y` sits at index `(y·n + s)·4 + b` of the buffer. */
  lemma BufferAt(d: seq<seq<int>>, n: nat, y: nat, s: nat, b: nat)
    requires n >= 1 && IsGrid(d, n * DispWidthUnit) && y < DispHeight && s < n && b < 4
    ensures (y * n + s) * 4 + b < |Buffer(d, n)|
    ensures (s + 1) * DispWidthUnit <= |d[y]|
    ensures Buffer(d, n)[(y * n + s) * 4 + b] == PackedByte(d[y], s, b)
  {
    PrefixFits(n, y, s, b + 1);
    ScreenFits(s, n);
    ByteIndex(n, y, s, b);
  }

  /**
   * Bit `i` of the buffer byte for byte `b` of screen `s` in display row `y`
   * is the cell in column `s·28 + 8b + i` of that row; the four padding bits
   * of a screen's last byte are 0.
   */
  lemma BufferBits(d: seq<seq<int>>, n: nat, y: nat, s: nat, b: nat, i: nat)
    requires n >= 1 && IsGrid(d, n * DispWidthUnit)
    requires y < DispHeight && s < n && b < 4 && i < 8
    ensures (y * n + s) * 4 + b < |Buffer(d, n)|
    ensures Bit(Buffer(d, n)[(y * n + s) * 4 + b] as nat, i) ==
      if 8 * b + i < DispWidthUnit && d[y][s * DispWidthUnit + 8 * b + i] != 0 then 1 else 0
  {
    BufferAt(d, n, y, s, b);
    var bits := CellBits(d[y], s * DispWidthUnit + 8 * b, ByteSpan(b));
    assert PackedByte(d[y], s, b) == ByteOf(bits);
    ByteOfBits(bits, i);
  }

  /* ---------------------------------------------------------------------- */
  /* export_frame and the parsing half of load_frame                         */
  /* ---------------------------------------------------------------------- */

  /** The line `export_frame` writes: `!FRAME;ADDR=` and the address, the command, the length, the base64. */
  function ExportText(addr: int, buf: seq<int>): (r: string)
    requires AreBytes(buf)
    ensures |r| > 7 && r[..7] == "!FRAME;"
  {
    ExportLine(addr, Cmd, buf)
  }

  /** A frame line for any command byte. */
  function ExportLine(addr: int, cmd: int, buf: seq<int>): string
    requires AreBytes(buf)
  {
    "!FRAME;" + Join(ExportFieldsOf(addr, cmd, buf), ";")
  }

  /** The four `;`-separated fields of the line. */
  function ExportFieldsOf(addr: int, cmd: int, buf: seq<int>): seq<string>
    requires AreBytes(buf)
  {
    ["ADDR=" + FormatHex(addr, 2), FormatHex(cmd, 2), FormatHex(|buf|, 0), Encode(buf)]
  }

  /** What a frame line carries: the device address and the packed bytes. */
  datatype Frame = Frame(addr: int, raw: seq<int>)

  /**
   * The `try` block of `load_frame`: `None` when the line lacks the
   * `!FRAME;` prefix, when a field is missing, when the address, command or
   * length is not a base-16 `int()`, or when the base64 does not decode.
   * Command and length are parsed but not used.
   */
  function ParseFrame(line: string): (r: Option<Frame>)
    ensures r.Some? ==> AreBytes(r.value.raw)
    ensures !StartsWith(line, "!FRAME;") ==> r.None?
  {
    if !StartsWith(line, "!FRAME;") then None else FrameOfFields(Split(line[7..], ';'))
  }

  /** The fields after the prefix: the address after `=` in the first, the command, the length and the base64. */
  function FrameOfFields(parts: seq<string>): (r: Option<Frame>)
    requires |parts| >= 1
    ensures r.Some? ==> AreBytes(r.value.raw)
  {
    var head := Split(parts[0], '=');
    if |head| < 2 || |parts| < 4 then None
    else
      match (PyInt(head[1], 16), PyInt(parts[1], 16), PyInt(parts[2], 16), Decode(parts[3]))
      case (Some(addr), Some(_), Some(_), Some(raw)) => Some(Frame(addr, raw))
      case _ => None
  }

  /** A hexadecimal number holds none of the characters that are no hexadecimal digit, except its sign. */
  lemma HexHasNo(n: int, width: nat, c: char)
    requires DigitValue(c) >= 16 && c != '-'
    ensures c !in FormatHex(n, width)
  {
    var _ := HexDigitsPart(n, width);
  }

  /** The base64 text holds only alphabet characters and `=`. */
  lemma EncodeHasNo(bs: seq<int>, c: char)
    requires AreBytes(bs) && c != '=' && SextetOf(c) == 64
    ensures c !in Encode(bs)
  {
  }

  /** No field of the line holds a `;`. */
  lemma FieldsHaveNoSemicolon(addr: int, cmd: int, buf: seq<int>)
    requires AreBytes(buf)
    ensures forall i :: 0 <= i < 4 ==> ';' !in ExportFieldsOf(addr, cmd, buf)[i]
  {
    AddressHasNoSemicolon(addr);
    HexHasNoSemicolon(cmd, 2);
    HexHasNoSemicolon(|buf|, 0);
    EncodeHasNoSemicolon(buf);
    FourWithout("ADDR=" + FormatHex(addr, 2), FormatHex(cmd, 2), FormatHex(|buf|, 0), Encode(buf), ';');
  }

  lemma FourWithout(a: string, b: string, c: string, d: string, ch: char)
    requires ch !in a && ch !in b && ch !in c && ch !in d
    ensures forall i :: 0 <= i < 4 ==> ch !in [a, b, c, d][i]
  {
  }

  lemma EncodeHasNoSemicolon(bs: seq<int>)
    requires AreBytes(bs)
    ensures ';' !in Encode(bs)
  {
    EncodeHasNo(bs, ';');
  }

  lemma HexHasNoSemicolon(n: int, width: nat)
    ensures ';' !in FormatHex(n, width)
  {
    HexHasNo(n, width, ';');
  }

  lemma AddressHasNoSemicolon(addr: int)
    ensures ';' !in "ADDR=" + FormatHex(addr, 2)
  {
    var hex := FormatHex(addr, 2);
    HexHasNoSemicolon(addr, 2);
    var f := "ADDR=" + hex;
    assert forall i :: 0 <= i < |f| ==> f[i] == if i < 5 then "ADDR="[i] else hex[i - 5];
  }

  /** The four fields of the header line, split at `;`. */
  lemma ExportFields(addr: int, cmd: int, buf: seq<int>)
    requires AreBytes(buf)
    ensures var line := ExportLine(addr, cmd, buf);
      StartsWith(line, "!FRAME;") && Split(line[7..], ';') == ExportFieldsOf(addr, cmd, buf)
  {
    var line := ExportLine(addr, cmd, buf);
    assert line[..7] == "!FRAME;" && line[7..] == Join(ExportFieldsOf(addr, cmd, buf), ";");
    FieldsHaveNoSemicolon(addr, cmd, buf);
    SplitJoin(ExportFieldsOf(addr, cmd, buf), ';');
  }

  /** The address field splits at `=` into its name and the hexadecimal address. */
  lemma AddressField(addr: int)
    ensures Split("ADDR=" + FormatHex(addr, 2), '=') == ["ADDR", FormatHex(addr, 2)]
  {
    var hex := FormatHex(addr, 2);
    HexHasNo(addr, 2, '=');
    assert "ADDR=" == "ADDR" + ['='];
    SplitAt("ADDR", '=', hex);
  }

  /** Reading the line `export_frame` wrote gives back the address and the bytes. */
  lemma ParseExport(addr: int, buf: seq<int>)
    requires AreBytes(buf)
    ensures ParseFrame(ExportText(addr, buf)) == Some(Frame(addr, buf))
  {
    ParseLine(addr, Cmd, buf);
  }

  /** A frame line parses back to its address and bytes, whatever its command byte. */
  lemma ParseLine(addr: int, cmd: int, buf: seq<int>)
    requires AreBytes(buf)
    ensures ParseFrame(ExportLine(addr, cmd, buf)) == Some(Frame(addr, buf))
  {
    var line := ExportLine(addr, cmd, buf);
    var hex := FormatHex(addr, 2);
    ExportFields(addr, cmd, buf);
    AddressField(addr);
    HexRoundTrip(addr, 2);
    HexRoundTrip(cmd, 2);
    HexRoundTrip(|buf|, 0);
    RoundTrip(buf);
    ParseFields("ADDR=" + hex, "ADDR", hex, FormatHex(cmd, 2), FormatHex(|buf|, 0), Encode(buf), addr, buf);
  }

  /** Four fields, the first split by `=` into two, with hexadecimal numbers and base64, make a frame. */
  lemma ParseFields(head: string, name: string, hex: string, c: string, len: string, data: string, addr: int, raw: seq<int>)
    requires Split(head, '=') == [name, hex]
    requires PyInt(hex, 16) == Some(addr) && PyInt(c, 16).Some? && PyInt(len, 16).Some? && Decode(data) == Some(raw)
    ensures FrameOfFields([head, c, len, data]) == Some(Frame(addr, raw))
  {
  }

  /* ---------------------------------------------------------------------- */
  /* The unpacking half of load_frame                                        */
  /* ---------------------------------------------------------------------- */

  function Min(a: int, b: int): int {
    if a <= b then a else b
  }

  /** The byte holding a cell's own bit: byte `c / 8` of its screen's part of the row, `c` its column in that screen. */
  function OwnByte(n: nat, y: nat, x: nat): nat {
    (y * n + x / DispWidthUnit) * 4 + x % DispWidthUnit / 8
  }

  /** When the unpacking loop writes a cell's own bit: bit `t % 8` of byte `t / 8` is written at step `t`. */
  function OwnTime(n: nat, y: nat, x: nat): nat {
    8 * OwnByte(n, y, x) + x % DispWidthUnit % 8
  }

  /**
   * Columns 0-3 of every screen but the first are also written 4 steps
   * earlier, by the padding bits 4-7 of the previous screen's last byte,
   * since that byte's bits run on past its screen's 28 columns.
   */
  predicate Overrun(x: nat) {
    x % DispWidthUnit < 4 && x / DispWidthUnit >= 1
  }

  /**
   * A cell once `load_frame` has done its first `j` bit steps over `raw`:
   * the latest write so far, or 0 (the zeroed grid) before any.
   */
  function CellAt(raw: seq<int>, n: nat, j: nat, y: nat, x: nat): (v: int)
    requires AreBytes(raw) && j <= 8 * |raw|
    ensures 0 <= v <= 1
  {
    var p, c := OwnByte(n, y, x), x % DispWidthUnit;
    if OwnTime(n, y, x) < j then Bit(raw[p], c % 8)
    else if Overrun(x) && OwnTime(n, y, x) < j + 4 then
      assert p >= 4 by {
        assert y * n + x / DispWidthUnit >= 1;
      }
      Bit(raw[p - 1], c + 4)
    else 0
  }

  /** The whole grid after the first `j` steps. */
  function GridAt(raw: seq<int>, n: nat, j: nat): (d: seq<seq<int>>)
    requires AreBytes(raw) && j <= 8 * |raw|
    ensures IsBitGrid(d, n * DispWidthUnit)
  {
    seq(DispHeight, y requires 0 <= y => RowAt(raw, n, j, y))
  }

  /** Display row `y` after the first `j` steps. */
  function RowAt(raw: seq<int>, n: nat, j: nat, y: nat): (r: seq<int>)
    requires AreBytes(raw) && j <= 8 * |raw|
    ensures |r| == n * DispWidthUnit && forall x :: 0 <= x < |r| ==> 0 <= r[x] <= 1
  {
    seq(n * DispWidthUnit, x requires 0 <= x => CellAt(raw, n, j, y, x))
  }

  /** The grid `load_frame` leaves: every byte it reaches unpacked, that is all of `raw` up to the buffer length. */
  function Unpacked(raw: seq<int>, n: nat): (d: seq<seq<int>>)
    requires AreBytes(raw)
    ensures IsBitGrid(d, n * DispWidthUnit)
  {
    GridAt(raw, n, 8 * Min(|raw|, DispHeight * 4 * n))
  }

  /** Step `8·((y0·n + s)·4 + b) + bit` aims at column `s·28 + 8b + bit` of row `y0`: a cell's own bit, or an overrun. */
  lemma StepTarget(n: nat, y0: nat, s: nat, b: nat, bit: nat)
    requires s < n && b < 4 && bit < 8
    ensures var j, x0 := 8 * ((y0 * n + s) * 4 + b) + bit, s * DispWidthUnit + 8 * b + bit;
      && (8 * b + bit < DispWidthUnit ==> x0 < n * DispWidthUnit && OwnTime(n, y0, x0) == j)
      && (8 * b + bit >= DispWidthUnit && x0 < n * DispWidthUnit ==> Overrun(x0) && OwnTime(n, y0, x0) == j + 4)
  {
    var x0 := s * DispWidthUnit + 8 * b + bit;
    if 8 * b + bit < DispWidthUnit {
      DivMod(x0, DispWidthUnit, s, 8 * b + bit);
      DivMod(8 * b + bit, 8, b, bit);
    } else if x0 < n * DispWidthUnit {
      DivMod(x0, DispWidthUnit, s + 1, 8 * b + bit - DispWidthUnit);
    }
  }

  /** Only the targeted cell is written at a step: its own bit, or its overrun bit. */
  lemma StepWrites(n: nat, y0: nat, s: nat, b: nat, bit: nat, y: nat, x: nat)
    requires s < n && b < 4 && bit < 8 && x < n * DispWidthUnit
    ensures var k, x0 := (y0 * n + s) * 4 + b, s * DispWidthUnit + 8 * b + bit;
      && (OwnTime(n, y, x) == 8 * k + bit ==> y == y0 && x == x0 && OwnByte(n, y, x) == k && x % DispWidthUnit % 8 == bit)
      && (Overrun(x) && OwnTime(n, y, x) == 8 * k + bit + 4 ==>
            y == y0 && x == x0 && OwnByte(n, y, x) == k + 1 && x % DispWidthUnit + 4 == bit)
  {
    var k := (y0 * n + s) * 4 + b;
    var sx, c := x / DispWidthUnit, x % DispWidthUnit;
    assert sx < n;
    if OwnTime(n, y, x) == 8 * k + bit {
      Unique(8, OwnByte(n, y, x), c % 8, k, bit);
      Unique(4, y * n + sx, c / 8, y0 * n + s, b);
      Unique(n, y, sx, y0, s);
    }
    if Overrun(x) && OwnTime(n, y, x) == 8 * k + bit + 4 {
      assert c / 8 == 0 && c % 8 == c;
      Unique(8, OwnByte(n, y, x) - 1, c + 4, k, bit);
      Unique(4, y * n + sx - 1, 3, y0 * n + s, b);
      Unique(n, y, sx - 1, y0, s);
    }
  }

  /** One step of the unpacking loop, cell by cell: step `8k + bit` writes byte `k`'s bit into cell `x0` of row `y0` alone. */
  lemma CellStep(raw: seq<int>, n: nat, y0: nat, s: nat, b: nat, bit: nat, k: nat, x0: nat, y: nat, x: nat)
    requires AreBytes(raw) && s < n && b < 4 && bit < 8 && x < n * DispWidthUnit
    requires k == (y0 * n + s) * 4 + b && x0 == s * DispWidthUnit + 8 * b + bit && k < |raw|
    ensures CellAt(raw, n, 8 * k + bit + 1, y, x) ==
      if y == y0 && x == x0 then Bit(raw[k], bit) else CellAt(raw, n, 8 * k + bit, y, x)
  {
    StepWrites(n, y0, s, b, bit, y, x);
    if y == y0 && x == x0 {
      StepTarget(n, y0, s, b, bit);
    }
  }

  /** One step of the unpacking loop on the whole grid: the targeted cell, when inside the grid, takes the bit. */
  lemma GridStep(raw: seq<int>, n: nat, y0: nat, s: nat, b: nat, bit: nat, k: nat, x0: nat)
    requires AreBytes(raw) && y0 < DispHeight && s < n && b < 4 && bit < 8
    requires k == (y0 * n + s) * 4 + b && x0 == s * DispWidthUnit + 8 * b + bit && k < |raw|
    ensures var g := GridAt(raw, n, 8 * k + bit);
      GridAt(raw, n, 8 * k + bit + 1) ==
        if x0 < n * DispWidthUnit then g[y0 := g[y0][x0 := Bit(raw[k], bit)]] else g
  {
    var g, g' := GridAt(raw, n, 8 * k + bit), GridAt(raw, n, 8 * k + bit + 1);
    var h := if x0 < n * DispWidthUnit then g[y0 := g[y0][x0 := Bit(raw[k], bit)]] else g;
    assert |g'| == |h| == DispHeight;
    forall y | 0 <= y < DispHeight ensures g'[y] == h[y] {
      assert g[y] == RowAt(raw, n, 8 * k + bit, y) && g'[y] == RowAt(raw, n, 8 * k + bit + 1, y);
      RowStep(raw, n, y0, s, b, bit, k, x0, y);
    }
  }

  /** One step of the unpacking loop on one row. */
  lemma RowStep(raw: seq<int>, n: nat, y0: nat, s: nat, b: nat, bit: nat, k: nat, x0: nat, y: nat)
    requires AreBytes(raw) && s < n && b < 4 && bit < 8
    requires k == (y0 * n + s) * 4 + b && x0 == s * DispWidthUnit + 8 * b + bit && k < |raw|
    ensures var r := RowAt(raw, n, 8 * k + bit, y);
      RowAt(raw, n, 8 * k + bit + 1, y) ==
        if y == y0 && x0 < n * DispWidthUnit then r[x0 := Bit(raw[k], bit)] else r
  {
    var r, r' := RowAt(raw, n, 8 * k + bit, y), RowAt(raw, n, 8 * k + bit + 1, y);
    forall x | 0 <= x < n * DispWidthUnit
      ensures r'[x] == if y == y0 && x == x0 then Bit(raw[k], bit) else r[x]
    {
      assert r'[x] == CellAt(raw, n, 8 * k + bit + 1, y, x) && r[x] == CellAt(raw, n, 8 * k + bit, y, x);
      CellStep(raw, n, y0, s, b, bit, k, x0, y, x);
    }
    if y == y0 && x0 < n * DispWidthUnit {
      assert r' == r[x0 := Bit(raw[k], bit)];
    } else {
      assert r' == r;
    }
  }

  /**
   * Where each cell of the loaded grid comes from: its own bit when the
   * payload reaches its byte; else, for columns 0-3 of a screen after the
   * first, when the payload ends right after the previous screen's last
   * byte, that byte's padding bit; else 0.
   */
  lemma UnpackedCell(raw: seq<int>, n: nat, y: nat, x: nat)
    requires AreBytes(raw) && n >= 1 && y < DispHeight && x < n * DispWidthUnit
    ensures var p, c := OwnByte(n, y, x), x % DispWidthUnit;
      Unpacked(raw, n)[y][x] ==
        if p < |raw| then Bit(raw[p], c % 8)
        else if Overrun(x) && p == |raw| then Bit(raw[p - 1], c + 4)
        else 0
  {
    var j := 8 * Min(|raw|, DispHeight * 4 * n);
    assert Unpacked(raw, n)[y] == RowAt(raw, n, j, y);
    assert Unpacked(raw, n)[y][x] == CellAt(raw, n, j, y, x);
    OwnByteInside(n, y, x);
    CellAtEnd(raw, n, y, x);
  }

  /** Every cell's own byte lies inside the buffer. */
  lemma OwnByteInside(n: nat, y: nat, x: nat)
    requires n >= 1 && y < DispHeight && x < n * DispWidthUnit
    ensures OwnByte(n, y, x) < DispHeight * 4 * n
  {
    var sx, c := x / DispWidthUnit, x % DispWidthUnit;
    assert sx < n && c / 8 < 4;
    assert y * n + sx < (y + 1) * n;
    MulMonotone(n, y + 1, DispHeight);
  }

  /** A cell once every step over the payload, or over the whole buffer, is done. */
  lemma CellAtEnd(raw: seq<int>, n: nat, y: nat, x: nat)
    requires AreBytes(raw) && OwnByte(n, y, x) < DispHeight * 4 * n
    ensures var p, c := OwnByte(n, y, x), x % DispWidthUnit;
      CellAt(raw, n, 8 * Min(|raw|, DispHeight * 4 * n), y, x) ==
        if p < |raw| then Bit(raw[p], c % 8)
        else if Overrun(x) && p == |raw| then Bit(raw[p - 1], c + 4)
        else 0
  {
  }

  /** Packing a drawing and unpacking it with the same screen count gives the drawing back. */
  lemma UnpackBuffer(d: seq<seq<int>>, n: nat)
    requires n >= 1 && IsBitGrid(d, n * DispWidthUnit)
    ensures Unpacked(Buffer(d, n), n) == d
  {
    var buf := Buffer(d, n);
    var u := Unpacked(buf, n);
    forall y | 0 <= y < DispHeight ensures u[y] == d[y] {
      forall x | 0 <= x < n * DispWidthUnit ensures u[y][x] == d[y][x] {
        UnpackedCell(buf, n, y, x);
        var s, c := x / DispWidthUnit, x % DispWidthUnit;
        BufferBits(d, n, y, s, c / 8, c % 8);
        assert s * DispWidthUnit + 8 * (c / 8) + c % 8 == x;
        assert OwnByte(n, y, x) == (y * n + s) * 4 + c / 8;
      }
    }
  }

  /** Before the first step the grid is all 0: no cell is written before step 32. */
  lemma GridAtStart(raw: seq<int>, n: nat)
    requires AreBytes(raw)
    ensures GridAt(raw, n, 0) == Uniform(n * DispWidthUnit, 0)
  {
    var g, u := GridAt(raw, n, 0), Uniform(n * DispWidthUnit, 0);
    forall y | 0 <= y < DispHeight ensures g[y] == u[y] {
      forall x | 0 <= x < n * DispWidthUnit ensures g[y][x] == u[y][x] {
        if Overrun(x) {
          assert y * n + x / DispWidthUnit >= 1;
        }
      }
    }
  }

  /** Exporting a drawing and loading the line back, with the same screen count, restores the address and the drawing. */
  lemma ExportLoadRoundTrip(addr: int, d: seq<seq<int>>, n: nat)
    requires n >= 1 && IsBitGrid(d, n * DispWidthUnit)
    ensures var f := ParseFrame(ExportText(addr, Buffer(d, n)));
      f.Some? && f.value.addr == addr && Unpacked(f.value.raw, n) == d
  {
    ParseExport(addr, Buffer(d, n));
    UnpackBuffer(d, n);
  }

  /**
   * The padding bits of a payload cut short are not ignored: with two screens
   * and a payload that ends after the first screen's four bytes, the high
   * bits of its last byte light columns 28-31, the first columns of the
   * second screen.
   */
  lemma TruncatedPayloadLeaks()
    ensures Unpacked([0, 0, 0, 0xF0], 2)[0][28] == 1
    ensures Unpacked([0, 0, 0, 0x0F], 2)[0][28] == 0
  {
    UnpackedCell([0, 0, 0, 0xF0], 2, 0, 28);
    UnpackedCell([0, 0, 0, 0x0F], 2, 0, 28);
    assert OwnByte(2, 0, 28) == 4;
    assert Bit(0xF0, 4) == 1;
    assert Bit(0x0F, 4) == 0;
  }
}
