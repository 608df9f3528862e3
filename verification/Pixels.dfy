/** A screen as RGB rows in one flat buffer, and what rectangles drawn one after another show
    on it. */
module Pixels {
  import opened Bytes
  import opened Rfb

  datatype Colour = Colour(red: byte, green: byte, blue: byte)

  const BLACK := Colour(0, 0, 0)

  // ----- What is to be seen -----

  predicate Covers(r: Rect, x: nat, y: nat) {
    r.Raw? && r.x <= x < r.x + r.w && r.y <= y < r.y + r.h
  }

  lemma MulMonotone(a: nat, b: nat, c: nat)
    requires a <= b
    ensures a * c <= b * c
  {
  }

  /** Where a place in a grid of that width is, counted row by row. */
  function Place(width: nat, x: nat, y: nat): nat {
    y * width + x
  }

  lemma PlaceInside(width: nat, height: nat, x: nat, y: nat)
    requires x < width && y < height
    ensures Place(width, x, y) < width * height
  {
    MulMonotone(y + 1, height, width);
  }

  lemma PlacesDiffer(width: nat, x: nat, y: nat, x': nat, y': nat)
    requires x < width && x' < width && (x, y) != (x', y')
    ensures Place(width, x, y) != Place(width, x', y')
  {
    if y < y' {
      MulMonotone(y + 1, y', width);
    } else if y' < y {
      MulMonotone(y' + 1, y, width);
    }
  }

  /** Four bytes a pixel, least significant first: blue, green, red and nothing. */
  function ColourOf(pixels: seq<byte>, place: nat): Colour
    requires 4 * place + 4 <= |pixels|
  {
    Colour(pixels[4 * place + 2], pixels[4 * place + 1], pixels[4 * place])
  }

  /** Four bytes as a little-endian number of 32 bits. */
  ghost function ValueAt(pixels: seq<byte>, place: nat): nat
    requires 4 * place + 4 <= |pixels|
  {
    var i := 4 * place;
    var b0: nat, b1: nat, b2: nat, b3: nat := pixels[i], pixels[i + 1], pixels[i + 2], pixels[i + 3];
    b0 + 0x100 * b1 + 0x1_0000 * b2 + 0x100_0000 * b3
  }

  /** The pixel format that is asked for: red at bit 16, green at bit 8, blue at bit 0. */
  ghost function ColourIn(value: nat): Colour {
    Colour(Low(value / 0x1_0000), Low(value / 0x100), Low(value))
  }

  ghost function Low(value: nat): byte {
    value % 0x100
  }

  lemma Digits(b0: nat, b1: nat, b2: nat, b3: nat, value: nat)
    requires b0 < 0x100 && b1 < 0x100 && b2 < 0x100
    requires value == b0 + 0x100 * b1 + 0x1_0000 * b2 + 0x100_0000 * b3
    ensures Low(value) == b0 && Low(value / 0x100) == b1 && Low(value / 0x1_0000) == b2
  {
    var high := b1 + 0x100 * (b2 + 0x100 * b3);
    assert value == b0 + 0x100 * high && value / 0x100 == high;
    assert value == (b0 + 0x100 * b1) + 0x1_0000 * (b2 + 0x100 * b3) && value / 0x1_0000 == b2 + 0x100 * b3;
  }

  lemma ColourOfValue(pixels: seq<byte>, place: nat)
    requires 4 * place + 4 <= |pixels|
    ensures ColourOf(pixels, place) == ColourIn(ValueAt(pixels, place))
  {
    var i := 4 * place;
    Digits(pixels[i], pixels[i + 1], pixels[i + 2], pixels[i + 3], ValueAt(pixels, place));
  }

  /** The colour that a raw rectangle has at a place, in that format. */
  ghost function Shade(r: Rect, x: nat, y: nat): Colour
    requires IsRect(r) && Covers(r, x, y)
  {
    PlaceInside(r.w, r.h, x - r.x, y - r.y);
    ColourIn(ValueAt(r.pixels, Place(r.w, x - r.x, y - r.y)))
  }

  /** Colours as a server sends them in that format. */
  function Painted(colours: seq<Colour>): (pixels: seq<byte>)
    ensures |pixels| == 4 * |colours|
  {
    if colours == [] then []
    else [colours[0].blue, colours[0].green, colours[0].red, 0] + Painted(colours[1..])
  }

  lemma {:induction false} PaintedAt(colours: seq<Colour>, place: nat)
    requires place < |colours|
    ensures ColourIn(ValueAt(Painted(colours), place)) == colours[place]
  {
    ColourOfValue(Painted(colours), place);
    if place > 0 {
      PaintedAt(colours[1..], place - 1);
      ColourOfValue(Painted(colours[1..]), place - 1);
    }
  }

  /** A raw rectangle painted in some colours shows them, row by row. */
  lemma PaintedShade(r: Rect, colours: seq<Colour>, x: nat, y: nat)
    requires IsRect(r) && r.Raw? && |colours| == r.w * r.h && r.pixels == Painted(colours) && Covers(r, x, y)
    ensures (y - r.y) * r.w + (x - r.x) < |colours|
    ensures Shade(r, x, y) == colours[(y - r.y) * r.w + (x - r.x)]
  {
    PlaceInside(r.w, r.h, x - r.x, y - r.y);
    PaintedAt(colours, Place(r.w, x - r.x, y - r.y));
  }

  /** The last raw rectangle that covers the place, or black. */
  ghost function Seen(rs: seq<Rect>, x: nat, y: nat): Colour
    requires AllRects(rs)
  {
    if rs == [] then BLACK else
    var last := rs[|rs| - 1];
    if Covers(last, x, y) then Shade(last, x, y) else Seen(rs[..|rs| - 1], x, y)
  }

  // ----- The buffer -----

  function At(rgb: array<byte>, width: nat, x: nat, y: nat): Colour
    requires 3 * Place(width, x, y) + 3 <= rgb.Length
    reads rgb
  {
    var i := 3 * Place(width, x, y);
    Colour(rgb[i], rgb[i + 1], rgb[i + 2])
  }

  ghost predicate IsBuffer(rgb: array<byte>, width: nat, height: nat) {
    rgb.Length == 3 * (width * height)
  }

  /** What the buffer shows at a place inside it. */
  ghost function Shown(rgb: array<byte>, width: nat, height: nat, x: nat, y: nat): Colour
    requires IsBuffer(rgb, width, height) && x < width && y < height
    reads rgb
  {
    PlaceInside(width, height, x, y);
    At(rgb, width, x, y)
  }

  method Put(rgb: array<byte>, width: nat, height: nat, x: nat, y: nat, c: Colour)
    requires IsBuffer(rgb, width, height) && x < width && y < height
    modifies rgb
    ensures forall x': nat, y': nat :: x' < width && y' < height ==>
      Shown(rgb, width, height, x', y') == if (x', y') == (x, y) then c else old(Shown(rgb, width, height, x', y'))
  {
    PlaceInside(width, height, x, y);
    var i := 3 * Place(width, x, y);
    rgb[i], rgb[i + 1], rgb[i + 2] := c.red, c.green, c.blue;
    forall x': nat, y': nat | x' < width && y' < height
      ensures Shown(rgb, width, height, x', y') == if (x', y') == (x, y) then c else old(Shown(rgb, width, height, x', y'))
    {
      PlaceInside(width, height, x', y');
      if (x', y') != (x, y) {
        PlacesDiffer(width, x, y, x', y');
      }
    }
  }

  /** A place within the part of a rectangle drawn so far. */
  predicate IsDrawn(r: Rect, rows: nat, columns: nat, x: nat, y: nat) {
    Covers(r, x, y) && (y < r.y + rows || (y == r.y + rows && x < r.x + columns))
  }

  /** Draws a raw rectangle, clipped to the screen: each place it covers shows its pixel, the
      others what they showed. */
  method Draw(rgb: array<byte>, width: nat, height: nat, r: Rect)
    requires IsBuffer(rgb, width, height) && r.Raw? && IsRect(r)
    modifies rgb
    ensures forall x: nat, y: nat :: x < width && y < height ==>
      Shown(rgb, width, height, x, y) == if Covers(r, x, y) then Shade(r, x, y) else old(Shown(rgb, width, height, x, y))
  {
    for row := 0 to r.h
      invariant forall x: nat, y: nat :: x < width && y < height ==>
        Shown(rgb, width, height, x, y) ==
          if IsDrawn(r, row, 0, x, y) then Shade(r, x, y) else old(Shown(rgb, width, height, x, y))
    {
      for column := 0 to r.w
        invariant forall x: nat, y: nat :: x < width && y < height ==>
          Shown(rgb, width, height, x, y) ==
            if IsDrawn(r, row, column, x, y) then Shade(r, x, y) else old(Shown(rgb, width, height, x, y))
      {
        var x, y := r.x + column, r.y + row;
        if x >= width || y >= height {
          continue;
        }
        PlaceInside(r.w, r.h, column, row);
        ColourOfValue(r.pixels, Place(r.w, column, row));
        Put(rgb, width, height, x, y, ColourOf(r.pixels, Place(r.w, column, row)));
      }
    }
  }
}
