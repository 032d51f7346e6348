/**
 * The PPM generator of hw0 Part4 (Part4/ppm_gen.cpp). Given the resolution
 * `xres yres` on the command line, it writes a plain PPM ("P3") image of
 * that size: a yellow disc on a dark red background. The disc's diameter is
 * the smaller of the two dimensions, and its centre is the pixel
 * (cols / 2, rows / 2) under C's integer division.
 *
 * The output is modelled as a sequence of lines of a small datatype rather
 * than as text.
 */
module Hw0Ppm {
  /** A colour of three integer intensities (RGB_Color). */
  datatype Rgb = Rgb(r: int, g: int, b: int)

  const Yellow := Rgb(255, 255, 0)
  const DarkRed := Rgb(128, 0, 0)
  const MaxIntensity := 255

  /** One line the program writes. */
  datatype PpmLine =
    | Usage                        // "Usage: ./ppm_test xres yres"
    | Magic                        // "P3"
    | Size(cols: int, rows: int)   // "cols rows"
    | MaxValue(n: int)             // "255"
    | PixelLine(c: Rgb)            // "r g b"

  /** `a / 2` in C: the quotient rounded toward zero. */
  function Half(a: int): (h: int)
    ensures a >= 0 ==> 0 <= a - 2 * h <= 1
    ensures a < 0 ==> 0 <= 2 * h - a <= 1
  {
    if a >= 0 then a / 2 else -((-a) / 2)
  }

  /** The diameter: rows when rows <= cols, else cols; that is, the smaller of the two. */
  function Diameter(cols: int, rows: int): (d: int)
    ensures d <= rows && d <= cols
    ensures d == rows || d == cols
  {
    if rows <= cols then rows else cols
  }

  /** The radius, diameter / 2. */
  function Radius(cols: int, rows: int): int
  {
    Half(Diameter(cols, rows))
  }

  /** The squared distance from (x, y) to the centre (cols / 2, rows / 2). */
  function Dist2(cols: int, rows: int, x: int, y: int): int
  {
    (x - Half(cols)) * (x - Half(cols)) + (y - Half(rows)) * (y - Half(rows))
  }

  /** The colour of pixel (x, y): yellow inside the closed disc, dark red outside. */
  function PixelColor(cols: int, rows: int, x: int, y: int): (c: Rgb)
    ensures c == Yellow <==> Dist2(cols, rows, x, y) <= Radius(cols, rows) * Radius(cols, rows)
    ensures c == DarkRed <==> Dist2(cols, rows, x, y) > Radius(cols, rows) * Radius(cols, rows)
  {
    if Dist2(cols, rows, x, y) <= Radius(cols, rows) * Radius(cols, rows) then Yellow else DarkRed
  }

  /** The number of pixels in a row: cols, or none when cols is not positive. */
  function Width(cols: int): nat
  {
    if cols > 0 then cols else 0
  }

  /** The pixel lines of row y, left to right. */
  function Row(cols: int, rows: int, y: int): (r: seq<PpmLine>)
    ensures |r| == Width(cols)
  {
    seq(Width(cols), x requires 0 <= x < Width(cols) => PixelLine(PixelColor(cols, rows, x, y)))
  }

  /** The pixel lines of rows 0 .. n - 1, row by row. */
  function Rows(cols: int, rows: int, n: nat): (r: seq<PpmLine>)
  {
    if n == 0 then [] else Rows(cols, rows, n - 1) + Row(cols, rows, n - 1)
  }

  /** The number of pixel lines: rows · cols, or none when either is not positive. */
  function PixelCount(cols: int, rows: int): nat
  {
    if rows > 0 && cols > 0 then rows * cols else 0
  }

  /** The whole file for the resolution cols × rows: the header, then the pixels row by row. */
  function PpmFile(cols: int, rows: int): seq<PpmLine>
  {
    [Magic, Size(cols, rows), MaxValue(MaxIntensity)] + Rows(cols, rows, if rows > 0 then rows else 0)
  }

  /**
   * main: with exactly two arguments, the image for the resolution they
   * give (read with atoi); otherwise the usage line.
   */
  method PpmGen(args: seq<string>, atoi: string -> int) returns (out: seq<PpmLine>)
    ensures |args| != 3 ==> out == [Usage]
    ensures |args| == 3 ==> out == PpmFile(atoi(args[1]), atoi(args[2]))
  {
    if |args| != 3 {
      return [Usage];
    }
    var cols := atoi(args[1]);
    var rows := atoi(args[2]);
    out := DrawCircle(cols, rows);
  }

  /** The header and the two nested pixel loops of main. */
  method DrawCircle(cols: int, rows: int) returns (out: seq<PpmLine>)
    ensures out == PpmFile(cols, rows)
  {
    var diameter := if rows <= cols then rows else cols;
    out := [Magic, Size(cols, rows), MaxValue(MaxIntensity)];
    var centerX := Half(cols);
    var centerY := Half(rows);
    var r2 := Half(diameter) * Half(diameter);
    var y := 0;
    while y < rows
      invariant 0 <= y <= (if rows > 0 then rows else 0)
      invariant out == [Magic, Size(cols, rows), MaxValue(MaxIntensity)] + Rows(cols, rows, y)
    {
      var row := DrawRow(cols, rows, y, centerX, centerY, r2);
      out := out + row;
      y := y + 1;
    }
  }

  /** The inner loop of main: the pixels of row y, left to right. */
  method DrawRow(cols: int, rows: int, y: int, centerX: int, centerY: int, r2: int) returns (row: seq<PpmLine>)
    requires centerX == Half(cols) && centerY == Half(rows) && r2 == Radius(cols, rows) * Radius(cols, rows)
    ensures row == Row(cols, rows, y)
  {
    var x := 0;
    row := [];
    while x < cols
      invariant 0 <= x <= Width(cols)
      invariant row == Row(cols, rows, y)[..x]
    {
      var dx := x - centerX;
      var dy := y - centerY;
      var d := dx * dx + dy * dy;
      var c := if d <= r2 then Yellow else DarkRed;
      assert Row(cols, rows, y)[..x + 1] == Row(cols, rows, y)[..x] + [PixelLine(c)];
      row := row + [PixelLine(c)];
      x := x + 1;
    }
  }

  /** The first n rows hold n · cols pixel lines. */
  lemma {:induction false} RowsLength(cols: int, rows: int, n: nat)
    ensures |Rows(cols, rows, n)| == n * Width(cols)
  {
    if n > 0 {
      RowsLength(cols, rows, n - 1);
      assert n * Width(cols) == (n - 1) * Width(cols) + Width(cols);
    }
  }

  /** Among the first n rows, pixel (x, y) is at index y · cols + x. */
  lemma {:induction false} RowsAt(cols: int, rows: int, n: nat, x: int, y: int)
    requires 0 <= x < cols && 0 <= y < n
    ensures y * cols + x < |Rows(cols, rows, n)|
    ensures Rows(cols, rows, n)[y * cols + x] == PixelLine(PixelColor(cols, rows, x, y))
  {
    RowsLength(cols, rows, n - 1);
    RowMajorBound(cols, n, y, x);
    if y < n - 1 {
      RowsAt(cols, rows, n - 1, x, y);
    } else {
      assert Rows(cols, rows, n)[y * cols + x] == Row(cols, rows, n - 1)[x];
    }
  }

  /** y · cols + x lies below n · cols when y < n and x < cols. */
  lemma RowMajorBound(cols: int, n: nat, y: int, x: int)
    requires cols > 0 && 0 <= y < n && 0 <= x < cols
    ensures y * cols + x < n * cols
    ensures y < n - 1 ==> y * cols + x < (n - 1) * cols
    ensures y == n - 1 ==> y * cols + x == (n - 1) * cols + x
    ensures n * cols == (n - 1) * cols + cols
  {
    assert (y + 1) * cols <= n * cols;
  }

  /** The file is the header followed by exactly rows · cols pixel lines. */
  lemma PpmLayout(cols: int, rows: int)
    ensures |PpmFile(cols, rows)| == 3 + PixelCount(cols, rows)
    ensures PpmFile(cols, rows)[..3] == [Magic, Size(cols, rows), MaxValue(255)]
  {
    if rows > 0 {
      RowsLength(cols, rows, rows);
    }
  }

  /** The pixels come in row-major order: pixel (x, y) is line 3 + y · cols + x. */
  lemma PixelAt(cols: int, rows: int, x: int, y: int)
    requires 0 <= x < cols && 0 <= y < rows
    ensures 3 + y * cols + x < |PpmFile(cols, rows)|
    ensures PpmFile(cols, rows)[3 + y * cols + x] == PixelLine(PixelColor(cols, rows, x, y))
  {
    RowsAt(cols, rows, rows, x, y);
  }

  /** The centre pixel is on the grid and yellow, whatever the resolution. */
  lemma CentreIsYellow(cols: int, rows: int)
    requires cols > 0 && rows > 0
    ensures 0 <= Half(cols) < cols && 0 <= Half(rows) < rows
    ensures PixelColor(cols, rows, Half(cols), Half(rows)) == Yellow
  {
  }

  /**
   * The image is symmetric about the centre column and the centre row: a
   * pixel and its mirror image have the same colour.
   */
  lemma MirrorSymmetric(cols: int, rows: int, x: int, y: int)
    ensures PixelColor(cols, rows, 2 * Half(cols) - x, y) == PixelColor(cols, rows, x, y)
    ensures PixelColor(cols, rows, x, 2 * Half(rows) - y) == PixelColor(cols, rows, x, y)
  {
    var dx := x - Half(cols);
    var dy := y - Half(rows);
    assert (2 * Half(cols) - x) - Half(cols) == -dx;
    assert (-dx) * (-dx) == dx * dx;
    assert (2 * Half(rows) - y) - Half(rows) == -dy;
    assert (-dy) * (-dy) == dy * dy;
  }

  /** Yellow pixels lie within the radius of the centre in each direction. */
  lemma YellowWithinRadius(cols: int, rows: int, x: int, y: int)
    requires cols >= 0 && rows >= 0
    requires PixelColor(cols, rows, x, y) == Yellow
    ensures -Radius(cols, rows) <= x - Half(cols) <= Radius(cols, rows)
    ensures -Radius(cols, rows) <= y - Half(rows) <= Radius(cols, rows)
  {
    var r := Radius(cols, rows);
    var dx := x - Half(cols);
    var dy := y - Half(rows);
    SquareNonnegative(dx);
    SquareNonnegative(dy);
    if dx > r || -dx > r {
      SquareBeyond(r, dx);
      assert false;
    }
    if dy > r || -dy > r {
      SquareBeyond(r, dy);
      assert false;
    }
  }

  lemma SquareNonnegative(a: int)
    ensures a * a >= 0
  {
  }

  /** A number beyond r (r >= 0) on either side has a square larger than r². */
  lemma SquareBeyond(r: int, a: int)
    requires r >= 0 && (a > r || -a > r)
    ensures a * a > r * r
  {
    var b := if a > r then a else -a;
    assert b * b == a * a;
    assert b * b >= b * (r + 1) >= (r + 1) * (r + 1);
  }

  /** In a square image of side n >= 2, the corner pixel (0, 0) lies outside the disc. */
  lemma CornerIsDarkRed(n: int)
    requires n >= 2
    ensures PixelColor(n, n, 0, 0) == DarkRed
  {
    var h := Half(n);
    assert h >= 1;
    assert Dist2(n, n, 0, 0) == h * h + h * h;
    assert Radius(n, n) == h;
    SquareNonnegative(h);
    assert h * h >= 1 by {
      assert h * h >= h * 1;
    }
  }
}
