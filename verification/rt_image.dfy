/**
 * The ray tracer's output image (hw7 image.h / image.cpp): a row-major
 * buffer of xres * yres colours, and the byte rows SaveImage hands to the
 * PNG writer, bottom image row first in the file.
 */
module RtImage {
  import opened LinAlg

  /** MAX_INTENSITY. */
  const MaxIntensity: int := 255

  const White: Vec3 := Vec3(1.0, 1.0, 1.0)

  /** fmin(fmax(0, v), 1). */
  function Clamp01(v: real): (c: real)
    ensures 0.0 <= c <= 1.0
    ensures 0.0 <= v <= 1.0 ==> c == v
    ensures v < 0.0 ==> c == 0.0
    ensures v > 1.0 ==> c == 1.0
  {
    if v < 0.0 then 0.0 else if v > 1.0 then 1.0 else v
  }

  /**
   * One output channel: the clamped value times 255, truncated to an
   * integer. Every byte lies in [0, 255]; 0 and below give 0, 1 and above
   * give 255.
   */
  function ChannelByte(v: real): (b: int)
    ensures 0 <= b <= MaxIntensity
    ensures b as real <= Clamp01(v) * 255.0 < b as real + 1.0
    ensures v <= 0.0 ==> b == 0
    ensures v >= 1.0 ==> b == MaxIntensity
  {
    (Clamp01(v) * 255.0).Floor
  }

  /** The three bytes of one pixel. */
  function PixelBytes(p: Vec3): (bs: seq<int>)
    ensures |bs| == 3 && forall k :: 0 <= k < 3 ==> 0 <= bs[k] <= MaxIntensity
  {
    [ChannelByte(p.x), ChannelByte(p.y), ChannelByte(p.z)]
  }

  /** Where image row y starts in the row-major pixel buffer. */
  function RowStart(xres: nat, y: nat): nat
  {
    xres * y
  }

  /** The bytes of `count` pixels from `start` on, three bytes each. */
  function RowBytes(pixels: seq<Vec3>, start: nat, count: nat): (bs: seq<int>)
    requires start + count <= |pixels|
    ensures |bs| == 3 * count
  {
    if count == 0 then [] else RowBytes(pixels, start, count - 1) + PixelBytes(pixels[start + count - 1])
  }

  /** Pixel x of the row is bytes 3x, 3x + 1 and 3x + 2 of the row's bytes. */
  lemma {:induction false} RowBytesPixels(pixels: seq<Vec3>, start: nat, count: nat)
    requires start + count <= |pixels|
    ensures forall x :: 0 <= x < count ==> RowBytes(pixels, start, count)[3 * x..3 * x + 3] == PixelBytes(pixels[start + x])
    decreases count
  {
    if count > 0 {
      RowBytesPixels(pixels, start, count - 1);
      var front := RowBytes(pixels, start, count - 1);
      var bs := RowBytes(pixels, start, count);
      assert bs == front + PixelBytes(pixels[start + count - 1]);
      forall x | 0 <= x < count
        ensures bs[3 * x..3 * x + 3] == PixelBytes(pixels[start + x])
      {
        if x < count - 1 {
          assert bs[3 * x..3 * x + 3] == front[3 * x..3 * x + 3];
        }
      }
    }
  }

  /** Every byte SaveImage writes is in [0, 255]. */
  lemma RowBytesInRange(pixels: seq<Vec3>, start: nat, count: nat)
    requires start + count <= |pixels|
    ensures forall i :: 0 <= i < |RowBytes(pixels, start, count)| ==> 0 <= RowBytes(pixels, start, count)[i] <= MaxIntensity
  {
    var bs := RowBytes(pixels, start, count);
    RowBytesPixels(pixels, start, count);
    forall i | 0 <= i < |bs|
      ensures 0 <= bs[i] <= MaxIntensity
    {
      var x := i / 3;
      assert 3 * x <= i < 3 * x + 3;
      assert bs[3 * x..3 * x + 3] == PixelBytes(pixels[start + x]);
      assert bs[i] == bs[3 * x..3 * x + 3][i - 3 * x];
    }
  }

  class Image {
    var xres: int
    var yres: int
    var pixels: array<Vec3>

    /**
     * Image(): the body only builds and discards a temporary, so xres and
     * yres are indeterminate and the pixel vector is empty.
     */
    constructor Default()
      ensures pixels.Length == 0
    {
      xres, yres := 0, 0;
      pixels := new Vec3[0];
    }

    /** One row's bytes, as SaveImage's inner loop over x produces them. */
    method RowOf(y: int) returns (row: seq<int>)
      requires 0 <= xres && 0 <= y && RowStart(xres, y) + xres <= pixels.Length
      ensures row == RowBytes(pixels[..], RowStart(xres, y), xres)
    {
      row := [];
      var x := 0;
      while x < xres
        invariant 0 <= x <= xres
        invariant row == RowBytes(pixels[..], RowStart(xres, y), x)
      {
        var pixel := pixels[x + xres * y];
        assert pixel == pixels[..][RowStart(xres, y) + x];
        row := row + [ChannelByte(pixel.x), ChannelByte(pixel.y), ChannelByte(pixel.z)];
        x := x + 1;
      }
    }

    /** Image(w, h): xres = w, yres = h, and w·h pixels, all white. */
    constructor (width: int, height: int)
      requires width * height >= 0
      ensures xres == width && yres == height
      ensures pixels.Length == width * height
      ensures forall i :: 0 <= i < pixels.Length ==> pixels[i] == White
    {
      xres := width;
      yres := height;
      var count := width * height;
      pixels := new Vec3[count];
      new;
      var i := 0;
      while i < count
        invariant 0 <= i <= count
        invariant forall k :: 0 <= k < i ==> pixels[k] == White
        modifies pixels
      {
        pixels[i] := White;
        i := i + 1;
      }
    }

    /** SetPixel writes pixel x + xres·y and no other. */
    method SetPixel(x: int, y: int, color: Vec3)
      requires 0 <= x + xres * y < pixels.Length
      modifies pixels
      ensures pixels[x + xres * y] == color
      ensures forall i :: 0 <= i < pixels.Length && i != x + xres * y ==> pixels[i] == old(pixels[i])
    {
      pixels[x + xres * y] := color;
    }

    /**
     * The rows SaveImage builds: image row y (row 0 at the bottom) becomes
     * file row yres - 1 - y, holding the clamped bytes of that row's pixels.
     */
    method SaveRows() returns (rows: seq<seq<int>>)
      requires 0 <= xres && 0 <= yres && xres * yres <= pixels.Length
      ensures |rows| == yres
      ensures forall y :: 0 <= y < yres ==>
        RowStart(xres, y) + xres <= pixels.Length &&
        rows[yres - 1 - y] == RowBytes(pixels[..], RowStart(xres, y), xres)
    {
      RowsFit(xres, yres, pixels.Length);
      var rowPointers := new seq<int>[yres];
      ghost var image := pixels[..];
      var y := 0;
      while y < yres
        invariant 0 <= y <= yres
        invariant pixels[..] == image
        invariant forall k :: 0 <= k < y ==> rowPointers[yres - 1 - k] == RowBytes(image, RowStart(xres, k), xres)
        modifies rowPointers
      {
        var row := RowOf(y);
        rowPointers[yres - 1 - y] := row;
        y := y + 1;
      }
      rows := rowPointers[..];
    }
  }

  /** Every row of an xres-wide image with yres rows ends inside a buffer of xres·yres pixels. */
  lemma RowsFit(xres: nat, yres: nat, length: nat)
    requires xres * yres <= length
    ensures forall y :: 0 <= y < yres ==> RowStart(xres, y) + xres <= length
  {
    forall y | 0 <= y < yres
      ensures RowStart(xres, y) + xres <= length
    {
      MulMonotone(xres, y + 1, yres);
    }
  }

  lemma MulMonotone(c: nat, a: nat, b: nat)
    requires a <= b
    ensures c * a <= c * b
  {
  }
}
