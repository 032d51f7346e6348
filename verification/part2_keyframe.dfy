/**
 * The first keyframe program of hw6 (Part2 keyframe.cpp): the mapping
 * from a screen point to the arcball sphere, and the script reader, which
 * converts each rotation angle to radians before handing it to a Frame
 * constructor that converts it once more.
 */
module Part2Keyframe {
  import opened LinAlg
  import opened ObjWords
  import opened Streams
  import opened Quaternions
  import VectorHelpers
  import opened TransformFrames

  /** abs on a float. */
  function AbsReal(x: real): (r: real)
    ensures r >= 0.0 && (r == x || r == -x)
  {
    if x < 0.0 then -x else x
  }

  /**
   * screen2ndc: x and y scaled from [0, xres] and [yres, 0] to [−1, 1];
   * outside the unit disc z is 0, inside it z = |sqrt(1 − x² − y²)|.
   */
  function Screen2Ndc(m: Math, sx: real, sy: real, xres: int, yres: int): (v: Vec3)
    requires xres != 0 && yres != 0
    ensures v.z >= 0.0
    ensures v.x * v.x + v.y * v.y > 1.0 ==> v.z == 0.0
  {
    var x := (2.0 * sx) / xres as real - 1.0;
    var y := (yres as real - sy) * 2.0 / yres as real - 1.0;
    var sum := x * x + y * y;
    if sum > 1.0 then Vec3(x, y, 0.0) else Vec3(x, y, AbsReal(m.sqrt(1.0 - sum)))
  }

  /** Mapping back: (x + 1)·xres / 2 is the screen column, and yres − (y + 1)·yres / 2 the screen row. */
  lemma Screen2NdcInverse(m: Math, sx: real, sy: real, xres: int, yres: int)
    requires xres != 0 && yres != 0
    ensures (Screen2Ndc(m, sx, sy, xres, yres).x + 1.0) * xres as real / 2.0 == sx
    ensures yres as real - (Screen2Ndc(m, sx, sy, xres, yres).y + 1.0) * yres as real / 2.0 == sy
  {
    var v := Screen2Ndc(m, sx, sy, xres, yres);
    QuotientTimesDivisor(2.0 * sx, xres as real);
    assert v.x + 1.0 == (2.0 * sx) / xres as real;
    QuotientTimesDivisor((yres as real - sy) * 2.0, yres as real);
    assert v.y + 1.0 == (yres as real - sy) * 2.0 / yres as real;
  }

  /** With a true sqrt, a point inside the disc lands on the unit sphere. */
  lemma Screen2NdcOnSphere(m: Math, sx: real, sy: real, xres: int, yres: int)
    requires xres != 0 && yres != 0 && SqrtLaw(m)
    requires var v := Screen2Ndc(m, sx, sy, xres, yres); v.x * v.x + v.y * v.y <= 1.0
    ensures Dot3(Screen2Ndc(m, sx, sy, xres, yres), Screen2Ndc(m, sx, sy, xres, yres)) == 1.0
  {
    var v := Screen2Ndc(m, sx, sy, xres, yres);
    var w := 1.0 - (v.x * v.x + v.y * v.y);
    assert m.sqrt(w) >= 0.0 && m.sqrt(w) * m.sqrt(w) == w;
  }

  lemma DivideBySelf(c: real)
    requires c > 0.0
    ensures c / c == 1.0
  {
  }

  /** The centre of the window maps to the top of the sphere, and a corner to the rim's outside, flat. */
  lemma Screen2NdcLandmarks(m: Math, xres: int, yres: int)
    requires xres > 0 && yres > 0 && SqrtLaw(m)
    ensures Screen2Ndc(m, xres as real / 2.0, yres as real / 2.0, xres, yres) == Vec3(0.0, 0.0, 1.0)
    ensures Screen2Ndc(m, 0.0, yres as real, xres, yres) == Vec3(-1.0, -1.0, 0.0)
    ensures Screen2Ndc(m, xres as real, 0.0, xres, yres) == Vec3(1.0, 1.0, 0.0)
  {
    var cx, cy := xres as real, yres as real;
    assert Screen2Ndc(m, cx / 2.0, cy / 2.0, xres, yres) == Vec3(0.0, 0.0, 1.0) by {
      assert (2.0 * (cx / 2.0)) / cx - 1.0 == 0.0 by {
        assert 2.0 * (cx / 2.0) == cx;
        DivideBySelf(cx);
      }
      assert (cy - cy / 2.0) * 2.0 / cy - 1.0 == 0.0 by {
        assert (cy - cy / 2.0) * 2.0 == cy;
        DivideBySelf(cy);
      }
      assert AbsReal(m.sqrt(1.0 - (0.0 * 0.0 + 0.0 * 0.0))) == 1.0 by {
        assert 1.0 - (0.0 * 0.0 + 0.0 * 0.0) == 1.0;
        SqrtOfOne(m);
      }
    }
    assert Screen2Ndc(m, 0.0, cy, xres, yres) == Vec3(-1.0, -1.0, 0.0);
    assert Screen2Ndc(m, cx, 0.0, xres, yres) == Vec3(1.0, 1.0, 0.0) by {
      DivideBySelf(cy);
      DivideBySelf(cx);
      assert (2.0 * cx) / cx == 2.0;
      assert cy * 2.0 / cy == 2.0;
    }
  }

  /**
   * main's reading: a script that cannot be opened gives nothing; otherwise
   * the keyframes of its rotation lines, each angle converted to radians
   * on reading.
   */
  method ReadKeyframes(m: Math, p: Parsers, files: map<string, string>, name: string) returns (ok: bool, frames: seq<TransformFrames.Frame>)
    requires name in files ==> AxesReadable(m, p, Split(files[name], '\n'))
    ensures ok <==> name in files
    ensures ok ==> frames == Script(m, p, true, Split(files[name], '\n')).1
    ensures !ok ==> frames == []
  {
    if name !in files {
      return false, [];
    }
    var lines := StrSplit(files[name], '\n');
    var numFrames;
    numFrames, frames := ReadScript(m, p, true, lines);
    ok := true;
  }

  /**
   * As written: a rotation line with angle a stores deg2rad(a) in a field
   * meant to hold degrees, and the quaternion turns by deg2rad(deg2rad(a)).
   */
  lemma AngleConvertedTwice(m: Math, p: Parsers, st: Reading, tokens: seq<string>)
    requires IsRotation(tokens) && AxisReadable(m, p, tokens)
    ensures var a := p.strtod(tokens[|tokens| - 1]);
            var axis := Triple(p, tokens, |tokens| - 2);
            var f := ReadLine(m, p, true, st, tokens).1[0];
            f.angle == VectorHelpers.Deg2Rad(a) &&
            f.q == Rot2Quar(m, VectorHelpers.DivideByNorm(m, axis), VectorHelpers.Deg2Rad(VectorHelpers.Deg2Rad(a)))
  {
  }

  /**
   * As intended, and as the I_Bar reader does it: the angle is stored in
   * degrees as read, and the keyframe constructor converts it once, so the
   * quaternion turns by deg2rad(a).
   */
  lemma AngleConvertedOnce(m: Math, p: Parsers, st: Reading, tokens: seq<string>)
    requires IsRotation(tokens) && AxisReadable(m, p, tokens)
    ensures var a := p.strtod(tokens[|tokens| - 1]);
            var axis := Triple(p, tokens, |tokens| - 2);
            var f := ReadLine(m, p, false, st, tokens).1[0];
            f.angle == a &&
            f.q == Rot2Quar(m, VectorHelpers.DivideByNorm(m, axis), VectorHelpers.Deg2Rad(a))
  {
  }

  /** A quarter turn read this way is not a quarter turn: deg2rad(deg2rad(90)) = π² / 360, not π / 2. */
  lemma QuarterTurnConvertedTwice()
    ensures VectorHelpers.Deg2Rad(VectorHelpers.Deg2Rad(90.0)) != PI / 2.0
    ensures VectorHelpers.Deg2Rad(90.0) == PI / 2.0
  {
  }
}
