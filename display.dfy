/**
 * The flip-dot display editor (`DisplayEditor` in `display_tool.py`): the
 * drawing it keeps, the mouse painting, clearing and filling, the screen
 * count and address controls, and the frame line it exports and loads. The
 * GTK widgets are reduced to the values the editor reads from them: the
 * mouse position and button, the spin button's screen count, the address
 * combo's text and the text of the frame entry.
 */
module DisplayTool {
  import opened Wrappers
  import opened PyText
  import opened FormEncoding
  import opened FrameCodec

  /** Pixels per cell on the canvas. */
  const Scale: int := 10
  const DefaultScreens: nat := 5
  const DefaultAddr: int := 0x3C
  /** The range of the screen count spin button. */
  const MaxScreens: nat := 16

  /** The grid `d` with the one cell at row `y`, column `x` set to `v`. */
  function Paint(d: seq<seq<int>>, y: nat, x: nat, v: int): (r: seq<seq<int>>)
    requires y < |d| && x < |d[y]|
    ensures |r| == |d| && forall y' :: 0 <= y' < |d| ==> |r[y']| == |d[y']|
    ensures forall y', x' :: 0 <= y' < |d| && 0 <= x' < |d[y']| ==>
      r[y'][x'] == if y' == y && x' == x then v else d[y'][x']
  {
    d[y := d[y][x := v]]
  }

  lemma NextRow(n: nat, y: nat)
    ensures (y * n + n) * 4 == (y + 1) * n * 4
  {
  }

  /** The four bytes of screen `s` in a display row. */
  function ScreenBytes(row: seq<int>, s: nat): (bytes: seq<int>)
    requires (s + 1) * DispWidthUnit <= |row|
    ensures |bytes| == 4 && forall b :: 0 <= b < 4 ==> bytes[b] == PackedByte(row, s, b)
  {
    [PackedByte(row, s, 0), PackedByte(row, s, 1), PackedByte(row, s, 2), PackedByte(row, s, 3)]
  }

  /** The buffer is the screens' bytes, row after row, screen after screen: screen `s` of row `y` starts at `base`. */
  lemma BufferSlice(d: seq<seq<int>>, n: nat, y: nat, s: nat, base: nat)
    requires n >= 1 && IsGrid(d, n * DispWidthUnit) && y < DispHeight && s < n && base == (y * n + s) * 4
    ensures base + 4 <= |Buffer(d, n)|
    ensures (s + 1) * DispWidthUnit <= |d[y]|
    ensures Buffer(d, n)[..base + 4] == Buffer(d, n)[..base] + ScreenBytes(d[y], s)
  {
    var buf := Buffer(d, n);
    BufferAt(d, n, y, s, 0);
    BufferAt(d, n, y, s, 1);
    BufferAt(d, n, y, s, 2);
    BufferAt(d, n, y, s, 3);
    assert buf[base..base + 4] == ScreenBytes(d[y], s);
    assert buf[..base + 4] == buf[..base] + buf[base..base + 4];
  }

  /**
   * The inner loop of `get_buffer` for one screen of one display row: a
   * byte appended after every 8 cells, and the last 4 cells in a byte of
   * their own.
   */
  method PackScreen(row: seq<int>, s: nat) returns (bytes: seq<int>)
    requires (s + 1) * DispWidthUnit <= |row|
    ensures bytes == ScreenBytes(row, s)
  {
    var xOffset := s * DispWidthUnit;
    bytes := [];
    var byte := 0;
    var bitIndex := 0;
    ghost var bits: seq<bool> := [];
    var x := 0;
    while x < DispWidthUnit
      invariant 0 <= x <= DispWidthUnit && bitIndex == x % 8
      invariant |bytes| == x / 8 && forall b :: 0 <= b < x / 8 ==> bytes[b] == PackedByte(row, s, b)
      invariant bits == CellBits(row, xOffset + x / 8 * 8, bitIndex)
      invariant byte == ByteOf(bits)
    {
      var lit := row[xOffset + x] != 0;
      ByteOfSnoc(bits, lit);
      CellBitsSnoc(row, xOffset + x / 8 * 8, bitIndex);
      if lit {
        // the bit at `bitIndex` is still clear, so setting it adds its power of two
        byte := byte + Pow2(bitIndex);
      }
      bits := bits + [lit];
      bitIndex := bitIndex + 1;
      if bitIndex == 8 {
        assert byte == PackedByte(row, s, x / 8);
        bytes := bytes + [byte];
        byte := 0;
        bitIndex := 0;
        bits := [];
      }
      x := x + 1;
    }
    if bitIndex > 0 {
      assert byte == PackedByte(row, s, 3);
      bytes := bytes + [byte];
    }
  }

  /** The loop of `get_buffer` over the screens of display row `y`, appending each screen's 4 bytes. */
  method PackRow(d: seq<seq<int>>, n: nat, y: nat, prefix: seq<int>) returns (buf: seq<int>)
    requires n >= 1 && IsGrid(d, n * DispWidthUnit) && y < DispHeight
    requires |prefix| == y * n * 4 && prefix <= Buffer(d, n)
    ensures |buf| == (y + 1) * n * 4 && buf <= Buffer(d, n)
  {
    buf := prefix;
    var screen := 0;
    ghost var base: nat := y * n * 4;
    while screen < n
      invariant 0 <= screen <= n && base == (y * n + screen) * 4 && |buf| == base
      invariant buf <= Buffer(d, n)
    {
      BufferSlice(d, n, y, screen, base);
      assert buf == Buffer(d, n)[..base];
      var bytes := PackScreen(d[y], screen);
      buf := buf + bytes;
      base := base + 4;
      screen := screen + 1;
    }
    NextRow(n, y);
  }

  class DisplayEditor {
    /** The number of 28-column screens side by side. */
    var screens: nat
    /** The device address written into exported frames. */
    var addr: int
    /** `DispHeight` rows of `screens · 28` cells, each 0 or 1. */
    var drawing: seq<seq<int>>
    var mouseDown: bool
    var mouseErase: bool
    /** The text of the frame entry: what `export_frame` writes and `load_frame` reads. */
    var output: string

    ghost predicate Valid()
      reads this
    {
      1 <= screens <= MaxScreens && IsBitGrid(drawing, screens * DispWidthUnit)
    }

    constructor ()
      ensures Valid()
      ensures screens == DefaultScreens && addr == DefaultAddr
      ensures drawing == Uniform(DefaultScreens * DispWidthUnit, 0)
      ensures !mouseDown && !mouseErase && output == ""
    {
      screens := DefaultScreens;
      addr := DefaultAddr;
      drawing := Uniform(DefaultScreens * DispWidthUnit, 0);
      mouseDown := false;
      mouseErase := false;
      output := "";
    }

    /** Every cell 0. */
    method Clear()
      requires Valid()
      modifies this
      ensures Valid() && drawing == Uniform(screens * DispWidthUnit, 0)
      ensures screens == old(screens) && addr == old(addr) && output == old(output)
      ensures mouseDown == old(mouseDown) && mouseErase == old(mouseErase)
    {
      drawing := Uniform(screens * DispWidthUnit, 0);
    }

    /** Every cell 1. */
    method Fill()
      requires Valid()
      modifies this
      ensures Valid() && drawing == Uniform(screens * DispWidthUnit, 1)
      ensures screens == old(screens) && addr == old(addr) && output == old(output)
      ensures mouseDown == old(mouseDown) && mouseErase == old(mouseErase)
    {
      drawing := Uniform(screens * DispWidthUnit, 1);
    }

    /**
     * A button press at canvas position (`px`, `py`): inside the grid it
     * starts a stroke, erasing with button 3 and drawing with any other, and
     * paints the cell under the mouse; outside it does nothing.
     */
    method MouseDown(px: int, py: int, button: int)
      requires Valid()
      modifies this
      ensures Valid()
      ensures var x, y := px / Scale, py / Scale;
        if 0 <= x < old(screens) * DispWidthUnit && 0 <= y < DispHeight then
          mouseDown && mouseErase == (button == 3)
          && drawing == Paint(old(drawing), y, x, if button == 3 then 0 else 1)
        else
          mouseDown == old(mouseDown) && mouseErase == old(mouseErase) && drawing == old(drawing)
      ensures screens == old(screens) && addr == old(addr) && output == old(output)
    {
      var x, y := px / Scale, py / Scale;
      if 0 <= x < screens * DispWidthUnit && 0 <= y < DispHeight {
        mouseDown := true;
        mouseErase := button == 3;
        drawing := Paint(drawing, y, x, if mouseErase then 0 else 1);
      }
    }

    /** A button release ends the stroke. */
    method MouseUp()
      requires Valid()
      modifies this
      ensures Valid()
      ensures !mouseDown
      ensures screens == old(screens) && addr == old(addr) && output == old(output)
      ensures drawing == old(drawing) && mouseErase == old(mouseErase)
    {
      mouseDown := false;
    }

    /** Moving the mouse during a stroke paints the cell under it the way the stroke began; otherwise nothing changes. */
    method MouseMove(px: int, py: int)
      requires Valid()
      modifies this
      ensures Valid()
      ensures var x, y := px / Scale, py / Scale;
        drawing ==
          if old(mouseDown) && 0 <= x < old(screens) * DispWidthUnit && 0 <= y < DispHeight then
            Paint(old(drawing), y, x, if old(mouseErase) then 0 else 1)
          else old(drawing)
      ensures screens == old(screens) && addr == old(addr) && output == old(output)
      ensures mouseDown == old(mouseDown) && mouseErase == old(mouseErase)
    {
      if mouseDown {
        var x, y := px / Scale, py / Scale;
        if 0 <= x < screens * DispWidthUnit && 0 <= y < DispHeight {
          drawing := Paint(drawing, y, x, if mouseErase then 0 else 1);
        }
      }
    }

    /**
     * `get_buffer`: for every display row and every screen, the screen's 28
     * cells least significant bit first, a byte appended after every 8 and
     * the last 4 cells in a byte of their own.
     */
    method GetBuffer() returns (buf: seq<int>)
      requires Valid()
      ensures buf == Buffer(drawing, screens)
    {
      var n, d := screens, drawing;
      buf := [];
      var y := 0;
      while y < DispHeight
        invariant 0 <= y <= DispHeight && |buf| == y * n * 4
        invariant buf <= Buffer(d, n)
      {
        buf := PackRow(d, n, y, buf);
        y := y + 1;
      }
    }

    /** `export_frame`: the frame line of the current buffer and address goes to the frame entry. */
    method ExportFrame()
      requires Valid()
      modifies this
      ensures Valid() && output == ExportText(addr, Buffer(drawing, screens))
      ensures screens == old(screens) && addr == old(addr) && drawing == old(drawing)
      ensures mouseDown == old(mouseDown) && mouseErase == old(mouseErase)
    {
      var buf := GetBuffer();
      output := ExportText(addr, buf);
    }

    /**
     * `load_frame`: a line that does not parse leaves everything as it was;
     * otherwise the address is taken over and the grid, zeroed, is unpacked
     * from the payload byte by byte, bit by bit, a byte's bits going to
     * consecutive columns from `screen·28 + 8b` while inside the grid.
     */
    method LoadFrame()
      requires Valid()
      modifies this
      ensures Valid() && screens == old(screens) && output == old(output)
      ensures mouseDown == old(mouseDown) && mouseErase == old(mouseErase)
      ensures ParseFrame(output).None? ==> addr == old(addr) && drawing == old(drawing)
      ensures ParseFrame(output).Some? ==>
        addr == ParseFrame(output).value.addr && drawing == Unpacked(ParseFrame(output).value.raw, screens)
    {
      var parsed := ParseFrame(output);
      ApplyFrame(parsed);
    }

    /** What `load_frame` does with the outcome of its parse: nothing after a parse error, else take the address and unpack. */
    method ApplyFrame(parsed: Option<Frame>)
      requires Valid() && (parsed.Some? ==> AreBytes(parsed.value.raw))
      modifies this
      ensures Valid() && screens == old(screens) && output == old(output)
      ensures mouseDown == old(mouseDown) && mouseErase == old(mouseErase)
      ensures parsed.None? ==> addr == old(addr) && drawing == old(drawing)
      ensures parsed.Some? ==> addr == parsed.value.addr && drawing == Unpacked(parsed.value.raw, screens)
    {
      if parsed.Some? {
        addr := parsed.value.addr;
        LoadPayload(parsed.value.raw);
      }
    }

    /** The grid zeroed at the current width, then the payload unpacked into it. */
    method LoadPayload(raw: seq<int>)
      requires Valid() && AreBytes(raw)
      modifies this
      ensures Valid() && drawing == Unpacked(raw, screens)
      ensures screens == old(screens) && addr == old(addr) && output == old(output)
      ensures mouseDown == old(mouseDown) && mouseErase == old(mouseErase)
    {
      var n := screens;
      var width := n * DispWidthUnit;
      drawing := Uniform(width, 0);
      GridAtStart(raw, n);
      UnpackPayload(raw);
    }

    /** The loops of `load_frame` over display rows and screens, from the zeroed grid. */
    method UnpackPayload(raw: seq<int>)
      requires Valid() && AreBytes(raw) && drawing == GridAt(raw, screens, 0)
      modifies this
      ensures Valid() && drawing == Unpacked(raw, screens)
      ensures screens == old(screens) && addr == old(addr) && output == old(output)
      ensures mouseDown == old(mouseDown) && mouseErase == old(mouseErase)
    {
      var n := screens;
      var i := 0;
      var y := 0;
      while y < DispHeight
        invariant 0 <= y <= DispHeight && i == Min(|raw|, y * n * 4)
        invariant drawing == GridAt(raw, n, 8 * i)
        invariant screens == n && addr == old(addr) && output == old(output)
        invariant mouseDown == old(mouseDown) && mouseErase == old(mouseErase)
      {
        var screen := 0;
        while screen < n
          invariant 0 <= screen <= n && i == Min(|raw|, (y * n + screen) * 4)
          invariant drawing == GridAt(raw, n, 8 * i)
          invariant screens == n && addr == old(addr) && output == old(output)
          invariant mouseDown == old(mouseDown) && mouseErase == old(mouseErase)
        {
          i := UnpackScreen(raw, y, screen, i);
          screen := screen + 1;
        }
        NextRow(n, y);
        y := y + 1;
      }
    }

    /** The byte loop of `load_frame` for screen `s` in display row `y`: it stops once the payload is used up. */
    method UnpackScreen(raw: seq<int>, y: nat, s: nat, i0: nat) returns (i: nat)
      requires Valid() && AreBytes(raw) && y < DispHeight && s < screens
      requires i0 == Min(|raw|, (y * screens + s) * 4) && drawing == GridAt(raw, screens, 8 * i0)
      modifies this
      ensures Valid() && i == Min(|raw|, (y * screens + s) * 4 + 4) && drawing == GridAt(raw, screens, 8 * i)
      ensures screens == old(screens) && addr == old(addr) && output == old(output)
      ensures mouseDown == old(mouseDown) && mouseErase == old(mouseErase)
    {
      var n := screens;
      i := i0;
      var b := 0;
      while b < BytesPerDisplayRow
        invariant 0 <= b <= BytesPerDisplayRow && i == Min(|raw|, (y * n + s) * 4 + b)
        invariant drawing == GridAt(raw, n, 8 * i)
        invariant screens == n && addr == old(addr) && output == old(output)
        invariant mouseDown == old(mouseDown) && mouseErase == old(mouseErase)
      {
        if i >= |raw| {
          break;
        }
        UnpackByte(raw, n, y, s, b);
        i := i + 1;
        b := b + 1;
      }
    }

    /** The bit loop of `load_frame` for byte `b` of screen `s` in display row `y`: its bits to consecutive columns, while inside the grid. */
    method UnpackByte(raw: seq<int>, n: nat, y: nat, s: nat, b: nat)
      requires AreBytes(raw) && n == screens && y < DispHeight && s < n && b < 4
      requires (y * n + s) * 4 + b < |raw|
      requires drawing == GridAt(raw, n, 8 * ((y * n + s) * 4 + b))
      modifies this
      ensures drawing == GridAt(raw, n, 8 * ((y * n + s) * 4 + b) + 8)
      ensures screens == old(screens) && addr == old(addr) && output == old(output)
      ensures mouseDown == old(mouseDown) && mouseErase == old(mouseErase)
    {
      var i := (y * n + s) * 4 + b;
      var width := n * DispWidthUnit;
      var byte := raw[i];
      var bit := 0;
      while bit < 8
        invariant 0 <= bit <= 8 && drawing == GridAt(raw, n, 8 * i + bit)
        invariant screens == old(screens) && addr == old(addr) && output == old(output)
        invariant mouseDown == old(mouseDown) && mouseErase == old(mouseErase)
      {
        var x := s * DispWidthUnit + b * 8 + bit;
        GridStep(raw, n, y, s, b, bit, i, x);
        if x < width {
          drawing := Paint(drawing, y, x, Bit(byte, bit));
        }
        bit := bit + 1;
      }
    }

    /** `change_screens`: a new screen count from the spin button, and an all-zero grid of the new width. */
    method ChangeScreens(count: int)
      requires Valid() && 1 <= count <= MaxScreens
      modifies this
      ensures Valid() && screens == count && drawing == Uniform(count * DispWidthUnit, 0)
      ensures addr == old(addr) && output == old(output)
      ensures mouseDown == old(mouseDown) && mouseErase == old(mouseErase)
    {
      screens := count;
      drawing := Uniform(screens * DispWidthUnit, 0);
    }

    /**
     * `change_address`: the combo's text read as base-16 `int()`; no text or
     * text that does not parse leaves the address as it was.
     */
    method ChangeAddress(text: Option<string>)
      requires Valid()
      modifies this`addr
      ensures Valid()
      ensures addr == if text.Some? && PyInt(text.value, 16).Some? then PyInt(text.value, 16).value else old(addr)
      ensures screens == old(screens) && drawing == old(drawing) && output == old(output)
      ensures mouseDown == old(mouseDown) && mouseErase == old(mouseErase)
    {
      var parsed := if text.Some? then PyInt(text.value, 16) else None;
      if parsed.Some? {
        addr := parsed.value;
      }
    }
  }
}
