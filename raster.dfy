/** `draw_image`: every pixel of the canvas, visited row by row, is mapped
    to the plane, evaluated, coloured, and the four colour bytes of each
    pixel are laid end to end into an RGBA buffer. The parallel map keeps
    the order of its input, so it is modelled as a sequential one. */
module Raster {
  import opened Machine
  import opened Complexes
  import opened Views
  import opened Escape

  /** `iproduct!(0..height, 0..width)`: (y, x) pairs, rows outermost. */
  function Grid(height: nat, width: nat): (ps: seq<(nat, nat)>)
    ensures |ps| == height * width
    ensures forall k :: 0 <= k < |ps| ==> ps[k].0 < height && ps[k].1 < width
  {
    if height == 0 then []
    else Grid(height - 1, width) + seq(width, x => (height - 1, x))
  }

  /** Row y, column x is the (y * width + x)-th pair of the product. */
  lemma {:induction false} GridAt(height: nat, width: nat, y: nat, x: nat)
    requires y < height && x < width
    ensures y * width + x < |Grid(height, width)|
    ensures Grid(height, width)[y * width + x] == (y, x)
  {
    var below := Grid(height - 1, width);
    assert |below| == (height - 1) * width;
    if y < height - 1 {
      GridAt(height - 1, width, y, x);
      assert Grid(height, width)[y * width + x] == below[y * width + x];
    } else {
      assert y * width + x == |below| + x;
    }
  }

  /** `.flatten()` of a sequence of colours: their bytes, in order. */
  function Flatten(cs: seq<Color>): (bytes: seq<u8>)
    ensures |bytes| == 4 * |cs|
  {
    if |cs| == 0 then [] else cs[0] + Flatten(cs[1..])
  }

  /** Byte j of colour k sits at offset 4 * k + j. */
  lemma {:induction false} FlattenAt(cs: seq<Color>, k: nat, j: nat)
    requires k < |cs| && j < 4
    ensures Flatten(cs)[4 * k + j] == cs[k][j]
  {
    if k > 0 {
      FlattenAt(cs[1..], k - 1, j);
      assert Flatten(cs)[4 * k + j] == Flatten(cs[1..])[4 * (k - 1) + j];
    }
  }

  /** The number of pixels of a width by height canvas. */
  function PixelCount(width: u32, height: u32): nat
  {
    height as nat * width as nat
  }

  /** The caller's view can be drawn: the mapping divides by a non-zero
      zoom and the escape function is defined on every pixel. */
  predicate Drawable(v: View, width: u32, height: u32, e: Evaluator)
  {
    v.zoom != 0.0 &&
    forall x: u32, y: u32 :: x < width && y < height ==> PixelDefined(v, width, height, e, x, y)
  }

  /** The escape function is defined at the point of pixel (x, y). */
  predicate PixelDefined(v: View, width: u32, height: u32, e: Evaluator, x: u32, y: u32)
    requires v.zoom != 0.0
  {
    Defined(e, PixelToComplex(v, (width, height), (x, y)), v.sharpness)
  }

  /** The colour of the pixel in column x of row y. */
  function PixelColor(v: View, width: u32, height: u32, e: Evaluator, x: u32, y: u32): (color: Color)
    requires v.zoom != 0.0 && PixelDefined(v, width, height, e, x, y)
    ensures color[1] == 0 && color[2] == 0 && color[3] == 255
    ensures Evaluate(e, PixelToComplex(v, (width, height), (x, y)), v.sharpness) == -1 ==> color == Black
  {
    var c := PixelToComplex(v, (width, height), (x, y));
    ZToColor(Evaluate(e, c, v.sharpness), v.sharpness)
  }

  /** The colours of all pixels, in the order of the grid. */
  function Colors(v: View, width: u32, height: u32, e: Evaluator): (cs: seq<Color>)
    requires Drawable(v, width, height, e)
    ensures |cs| == PixelCount(width, height)
  {
    var grid := Grid(height as nat, width as nat);
    seq(|grid|, k requires 0 <= k < |grid| =>
      PixelColor(v, width, height, e, grid[k].1 as u32, grid[k].0 as u32))
  }

  /** An RGBA image buffer: its dimensions and its raw bytes. */
  datatype Image = Image(width: u32, height: u32, data: seq<u8>)

  /** `ImageBuffer::from_raw`: an image when the buffer holds at least
      `width * height` RGBA pixels, nothing otherwise. */
  function FromRaw(width: u32, height: u32, data: seq<u8>): (img: Option<Image>)
    ensures img.Some? <==> |data| >= 4 * PixelCount(width, height)
    ensures img.Some? ==> img.value == Image(width, height, data)
  {
    if |data| >= 4 * PixelCount(width, height) then Some(Image(width, height, data)) else None
  }

  /** The index of pixel (x, y) in the row-major order of the canvas. */
  function Cell(width: u32, x: u32, y: u32): nat
  {
    y as nat * width as nat + x as nat
  }

  lemma CellInBounds(width: u32, height: u32, x: u32, y: u32)
    requires x < width && y < height
    ensures Cell(width, x, y) < PixelCount(width, height)
  {
    assert Cell(width, x, y) < (y as nat + 1) * width as nat;
    assert (y as nat + 1) * width as nat <= height as nat * width as nat;
  }

  /** The four bytes of pixel (x, y) of an image. */
  function PixelAt(img: Image, x: u32, y: u32): (color: Color)
    requires x < img.width && y < img.height
    requires |img.data| >= 4 * PixelCount(img.width, img.height)
  {
    CellInBounds(img.width, img.height, x, y);
    var k := Cell(img.width, x, y);
    img.data[4 * k .. 4 * k + 4]
  }

  /** `draw_image`. The buffer is exactly width * height * 4 bytes long, so
      the `unwrap` of `from_raw` never fails. */
  function DrawImage(v: View, width: u32, height: u32, e: Evaluator): (img: Image)
    requires Drawable(v, width, height, e)
    ensures img.width == width && img.height == height
    ensures |img.data| == 4 * PixelCount(width, height)
  {
    var bytes := Flatten(Colors(v, width, height, e));
    var raw := FromRaw(width, height, bytes);
    if raw.Some? then raw.value else assert false; Image(width, height, bytes)
  }

  /** Colour k of the sequence is the colour of the pixel in column x of
      row y, for k = y * width + x. */
  lemma ColorsAt(v: View, width: u32, height: u32, e: Evaluator, x: u32, y: u32)
    requires Drawable(v, width, height, e) && x < width && y < height
    ensures Cell(width, x, y) < |Colors(v, width, height, e)|
    ensures Colors(v, width, height, e)[Cell(width, x, y)] == PixelColor(v, width, height, e, x, y)
  {
    var grid := Grid(height as nat, width as nat);
    var k := Cell(width, x, y);
    GridAt(height as nat, width as nat, y as nat, x as nat);
    assert grid[k].1 as u32 == x && grid[k].0 as u32 == y;
    assert Colors(v, width, height, e)[k] == PixelColor(v, width, height, e, grid[k].1 as u32, grid[k].0 as u32);
  }

  /** Every pixel of the drawn image has the colour of its own point: byte
      j of pixel (x, y) is at offset 4 * (y * width + x) + j. */
  lemma DrawImageLayout(v: View, width: u32, height: u32, e: Evaluator, x: u32, y: u32, j: nat)
    requires Drawable(v, width, height, e) && x < width && y < height && j < 4
    ensures 4 * Cell(width, x, y) + j < |DrawImage(v, width, height, e).data|
    ensures DrawImage(v, width, height, e).data[4 * Cell(width, x, y) + j] == PixelColor(v, width, height, e, x, y)[j]
  {
    ColorsAt(v, width, height, e, x, y);
    FlattenAt(Colors(v, width, height, e), Cell(width, x, y), j);
  }

  /** Reading pixel (x, y) back from the drawn image gives its colour. */
  lemma DrawImagePixel(v: View, width: u32, height: u32, e: Evaluator, x: u32, y: u32)
    requires Drawable(v, width, height, e) && x < width && y < height
    ensures PixelAt(DrawImage(v, width, height, e), x, y) == PixelColor(v, width, height, e, x, y)
  {
    var img := DrawImage(v, width, height, e);
    var color := PixelColor(v, width, height, e, x, y);
    var k := Cell(width, x, y);
    CellInBounds(width, height, x, y);
    var bytes := img.data[4 * k .. 4 * k + 4];
    forall j | 0 <= j < 4
      ensures bytes[j] == color[j]
    {
      DrawImageLayout(v, width, height, e, x, y, j);
    }
    assert PixelAt(img, x, y) == bytes;
  }
}
