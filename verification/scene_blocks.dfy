/**
 * The keyword blocks of the shaded renderers' scene files (create_lights,
 * create_material and create_scene in hw2 and hw5 parser.cpp, which are
 * the same code). Each block is read with getline up to an empty line or
 * the end of the file. Every line is split at single spaces, and its first
 * token names what the line sets:
 *
 * - a lights block has only "light x y z , r g b , k" lines;
 * - a material block has "ambient", "diffuse" and "specular" lines of three
 *   numbers and ends at its "shininess p" line;
 * - the camera block has "position x y z", "orientation x y z angle" and
 *   "near", "far", "left", "right", "top", "bottom" lines of one number.
 *
 * Any other first token throws. A line with fewer tokens than its keyword
 * reads would index past the token vector (undefined behaviour in the
 * source); the model reports it as an error too. Settings a block never
 * gives stay as the uninitialised locals left them, modelled as 0.
 */
module SceneBlocks {
  import opened Wrappers
  import opened LinAlg
  import opened Streams
  import opened TransformLines
  import opened Projection
  import opened Viewing

  // ---------------------------------------------------------------- create_lights

  /**
   * One light: its position in homogeneous coordinates, with w = 1 (hw2's
   * three-argument Vertex constructor and hw5's explicit l[3] = 1.0 agree),
   * its colour and its attenuation.
   */
  datatype LightRecord = LightRecord(position: Vec4, color: Vec3, k: real)

  /**
   * The light a line describes: position from tokens 1-3, colour from
   * tokens 5-7 and attenuation from token 9, tokens 4 and 8 being the
   * commas. Any other first token throws.
   */
  function LightLine(tokens: seq<string>, strtod: string -> real): (r: Option<LightRecord>)
    ensures r.Some? <==> |tokens| >= 10 && tokens[0] == "light"
    ensures r.Some? ==> r.value.position.w == 1.0
  {
    if |tokens| >= 10 && tokens[0] == "light" then
      Some(LightRecord(Vec4(strtod(tokens[1]), strtod(tokens[2]), strtod(tokens[3]), 1.0),
                       Vec3(strtod(tokens[5]), strtod(tokens[6]), strtod(tokens[7])),
                       strtod(tokens[9])))
    else
      None
  }

  /** The light on a line, split at spaces. */
  function LightOn(line: string, strtod: string -> real): Option<LightRecord>
  {
    LightLine(Split(line, ' '), strtod)
  }

  /**
   * The lights block starting at `start` and where reading stands after it,
   * or None when a line of the block throws.
   */
  function LightsFrom(lines: seq<string>, start: nat, strtod: string -> real): Option<(seq<LightRecord>, nat)>
    requires start <= |lines|
    decreases |lines| - start
  {
    if start == |lines| then Some(([], start))
    else if lines[start] == [] then Some(([], start + 1))
    else
      match LightOn(lines[start], strtod)
      case None => None
      case Some(light) =>
        match LightsFrom(lines, start + 1, strtod)
        case None => None
        case Some((rest, next)) => Some(([light] + rest, next))
  }

  /** The lights block is lost exactly when one of its lines throws. */
  lemma {:induction false} LightsBlockLost(lines: seq<string>, start: nat, strtod: string -> real)
    requires start <= |lines|
    ensures LightsFrom(lines, start, strtod).None?
        <==> exists i :: start <= i < BlockLast(lines, start) && LightOn(lines[i], strtod).None?
    decreases |lines| - start
  {
    if start < |lines| && lines[start] != [] {
      LightsBlockLost(lines, start + 1, strtod);
      if LightsFrom(lines, start, strtod).None? && LightOn(lines[start], strtod).Some? {
        var i :| start + 1 <= i < BlockLast(lines, start + 1) && LightOn(lines[i], strtod).None?;
        assert start <= i < BlockLast(lines, start);
      }
    }
  }

  /**
   * A lights block that is read has one light per line, entry i being the
   * light on line start + i, and reading goes on after the empty line.
   */
  lemma {:induction false} LightsBlockRead(lines: seq<string>, start: nat, strtod: string -> real)
    requires start <= |lines| && LightsFrom(lines, start, strtod).Some?
    ensures var (ls, next) := LightsFrom(lines, start, strtod).value;
      && next == BlockEnd(lines, start)
      && |ls| == BlockLast(lines, start) - start
      && forall i :: 0 <= i < |ls| ==> LightOn(lines[start + i], strtod) == Some(ls[i])
    decreases |lines| - start
  {
    if start < |lines| && lines[start] != [] {
      LightsBlockRead(lines, start + 1, strtod);
      var light := LightOn(lines[start], strtod).value;
      var (rest, next) := LightsFrom(lines, start + 1, strtod).value;
      var ls := [light] + rest;
      assert LightsFrom(lines, start, strtod).value == (ls, next);
      assert BlockLast(lines, start) == BlockLast(lines, start + 1);
      forall i | 1 <= i < |ls|
        ensures LightOn(lines[start + i], strtod) == Some(ls[i])
      {
        assert ls[i] == rest[i - 1] && lines[start + i] == lines[start + 1 + (i - 1)];
      }
    }
  }

  /** Lights already read, in front of what the rest of the block yields. */
  function AfterLights(done: seq<LightRecord>, r: Option<(seq<LightRecord>, nat)>): Option<(seq<LightRecord>, nat)>
  {
    match r
    case None => None
    case Some((ls, next)) => Some((done + ls, next))
  }

  /** One light more read: it moves from what is left to what is done. */
  lemma AfterOneLight(done: seq<LightRecord>, light: LightRecord, r: Option<(seq<LightRecord>, nat)>)
    ensures AfterLights(done, AfterLights([light], r)) == AfterLights(done + [light], r)
  {
    if r.Some? {
      assert done + ([light] + r.value.0) == (done + [light]) + r.value.0;
    }
  }

  /**
   * create_lights: the lights of the block starting at `pos`, in file
   * order, or None when a line throws; `next` is where reading goes on.
   */
  method CreateLights(lines: seq<string>, pos: nat, strtod: string -> real)
    returns (r: Option<seq<LightRecord>>, next: nat)
    requires pos <= |lines|
    ensures r.None? <==> LightsFrom(lines, pos, strtod).None?
    ensures r.Some? ==> (r.value, next) == LightsFrom(lines, pos, strtod).value
  {
    var ls: seq<LightRecord> := [];
    var i := pos;
    assert AfterLights(ls, LightsFrom(lines, i, strtod)) == LightsFrom(lines, pos, strtod) by {
      if LightsFrom(lines, i, strtod).Some? {
        assert [] + LightsFrom(lines, i, strtod).value.0 == LightsFrom(lines, i, strtod).value.0;
      }
    }
    while i < |lines| && lines[i] != []
      invariant pos <= i <= |lines|
      invariant AfterLights(ls, LightsFrom(lines, i, strtod)) == LightsFrom(lines, pos, strtod)
      decreases |lines| - i
    {
      var tokens := StrSplit(lines[i], ' ');
      if !(|tokens| >= 10 && tokens[0] == "light") {
        return None, i + 1;
      }
      var light := LightRecord(Vec4(strtod(tokens[1]), strtod(tokens[2]), strtod(tokens[3]), 1.0),
                               Vec3(strtod(tokens[5]), strtod(tokens[6]), strtod(tokens[7])),
                               strtod(tokens[9]));
      AfterOneLight(ls, light, LightsFrom(lines, i + 1, strtod));
      ls := ls + [light];
      i := i + 1;
    }
    next := if i < |lines| then i + 1 else i;
    assert ls + [] == ls;
    return Some(ls), next;
  }

  /** The tokens of the line that describes a light. */
  function LightTokens(light: LightRecord, show: real -> string): seq<string>
  {
    ["light", show(light.position.x), show(light.position.y), show(light.position.z), ",",
     show(light.color.x), show(light.color.y), show(light.color.z), ",", show(light.k)]
  }

  /** The line that describes a light: "light x y z , r g b , k". */
  function FormatLight(light: LightRecord, show: real -> string): string
  {
    Join(LightTokens(light, show), ' ')
  }

  /** The line written for a light (with w = 1) is read back as that light. */
  lemma FormattedLightParses(light: LightRecord, strtod: string -> real, show: real -> string)
    requires Inverts(strtod, show) && WritesOneToken(show) && light.position.w == 1.0
    ensures LightOn(FormatLight(light, show), strtod) == Some(light)
  {
    var toks := LightTokens(light, show);
    assert toks[|toks| - 1] != [];
    assert ' ' !in toks[0] && ' ' !in toks[4] && ' ' !in toks[8];
    SplitJoin(toks, ' ');
  }

  /**
   * A lights block written one line per light and closed by an empty line
   * is read back as the same lights, in order, and reading stops just
   * after the empty line.
   */
  lemma {:induction false} FormattedLightsParse(lines: seq<string>, start: nat, lights: seq<LightRecord>,
                                                strtod: string -> real, show: real -> string)
    requires Inverts(strtod, show) && WritesOneToken(show)
    requires forall i :: 0 <= i < |lights| ==> lights[i].position.w == 1.0
    requires start + |lights| < |lines| && lines[start + |lights|] == []
    requires forall i :: 0 <= i < |lights| ==> lines[start + i] == FormatLight(lights[i], show)
    ensures LightsFrom(lines, start, strtod) == Some((lights, start + |lights| + 1))
    decreases |lights|
  {
    if lights != [] {
      FormattedLightParses(lights[0], strtod, show);
      assert lines[start] != [] by {
        assert FormatLight(lights[0], show)[..5] == "light";
      }
      FormattedLightsParse(lines, start + 1, lights[1..], strtod, show);
      assert lights == [lights[0]] + lights[1..];
    }
  }

  // ---------------------------------------------------------------- create_material

  /** Material(a, d, s, p): the ambient, diffuse and specular reflectances and the shininess. */
  datatype Material = Material(ambient: Vec3, diffuse: Vec3, specular: Vec3, shininess: real)

  /** The material the block starts from: the uninitialised locals, as 0. */
  const UnsetMaterial := Material(Zero3, Zero3, Zero3, 0.0)

  /** What a material line does: sets a reflectance and goes on, or sets the shininess and ends the block. */
  datatype MaterialStep = Continue(m: Material) | Finish(m: Material)

  /**
   * One material line applied to m, or None when it throws. Only the named
   * setting changes.
   */
  function MaterialLine(tokens: seq<string>, m: Material, strtod: string -> real): (r: Option<MaterialStep>)
    ensures r.None? <==>
      !((|tokens| >= 4 && tokens[0] in {"ambient", "diffuse", "specular"}) || (|tokens| >= 2 && tokens[0] == "shininess"))
    ensures r.Some? ==> (r.value.Finish? <==> tokens[0] == "shininess")
    ensures r.Some? && tokens[0] == "ambient" ==> r.value.m == m.(ambient := r.value.m.ambient)
    ensures r.Some? && tokens[0] == "diffuse" ==> r.value.m == m.(diffuse := r.value.m.diffuse)
    ensures r.Some? && tokens[0] == "specular" ==> r.value.m == m.(specular := r.value.m.specular)
    ensures r.Some? && tokens[0] == "shininess" ==> r.value.m == m.(shininess := strtod(tokens[1]))
  {
    if |tokens| >= 4 && tokens[0] == "ambient" then
      Some(Continue(m.(ambient := Vec3(strtod(tokens[1]), strtod(tokens[2]), strtod(tokens[3])))))
    else if |tokens| >= 4 && tokens[0] == "diffuse" then
      Some(Continue(m.(diffuse := Vec3(strtod(tokens[1]), strtod(tokens[2]), strtod(tokens[3])))))
    else if |tokens| >= 4 && tokens[0] == "specular" then
      Some(Continue(m.(specular := Vec3(strtod(tokens[1]), strtod(tokens[2]), strtod(tokens[3])))))
    else if |tokens| >= 2 && tokens[0] == "shininess" then
      Some(Finish(m.(shininess := strtod(tokens[1]))))
    else
      None
  }

  /**
   * The material block from line `pos` on, having built m so far: the
   * material and where reading stands, or None when a line throws. The
   * shininess line ends the block at once, so the line after it is left
   * for the next reader; an empty line ends it too and is consumed.
   */
  function MaterialFrom(lines: seq<string>, pos: nat, m: Material, strtod: string -> real): Option<(Material, nat)>
    requires pos <= |lines|
    decreases |lines| - pos
  {
    if pos == |lines| then Some((m, pos))
    else if lines[pos] == [] then Some((m, pos + 1))
    else
      match MaterialLine(Split(lines[pos], ' '), m, strtod)
      case None => None
      case Some(Continue(m')) => MaterialFrom(lines, pos + 1, m', strtod)
      case Some(Finish(m')) => Some((m', pos + 1))
  }

  /** create_material: the material of the block starting at `pos`, or None when a line throws. */
  method CreateMaterial(lines: seq<string>, pos: nat, strtod: string -> real) returns (r: Option<Material>, next: nat)
    requires pos <= |lines|
    ensures r.None? <==> MaterialFrom(lines, pos, UnsetMaterial, strtod).None?
    ensures r.Some? ==> (r.value, next) == MaterialFrom(lines, pos, UnsetMaterial, strtod).value
  {
    var a, d, s, p := Zero3, Zero3, Zero3, 0.0;
    var i := pos;
    while i < |lines| && lines[i] != []
      invariant pos <= i <= |lines|
      invariant MaterialFrom(lines, i, Material(a, d, s, p), strtod) == MaterialFrom(lines, pos, UnsetMaterial, strtod)
      decreases |lines| - i
    {
      var tokens := StrSplit(lines[i], ' ');
      var info := if tokens == [] then "" else tokens[0];
      if |tokens| >= 4 && info == "ambient" {
        a := Vec3(strtod(tokens[1]), strtod(tokens[2]), strtod(tokens[3]));
      } else if |tokens| >= 4 && info == "diffuse" {
        d := Vec3(strtod(tokens[1]), strtod(tokens[2]), strtod(tokens[3]));
      } else if |tokens| >= 4 && info == "specular" {
        s := Vec3(strtod(tokens[1]), strtod(tokens[2]), strtod(tokens[3]));
      } else if |tokens| >= 2 && info == "shininess" {
        p := strtod(tokens[1]);
        return Some(Material(a, d, s, p)), i + 1;
      } else {
        return None, i + 1;
      }
      i := i + 1;
    }
    next := if i < |lines| then i + 1 else i;
    return Some(Material(a, d, s, p)), next;
  }

  /** The three numbers of a vector, written one token each. */
  function Show3(v: Vec3, show: real -> string): seq<string>
  {
    [show(v.x), show(v.y), show(v.z)]
  }

  /** The tokens of the four lines written for a material: ambient, diffuse, specular, then shininess. */
  function MaterialTokens(m: Material, show: real -> string): seq<seq<string>>
  {
    [["ambient"] + Show3(m.ambient, show), ["diffuse"] + Show3(m.diffuse, show),
     ["specular"] + Show3(m.specular, show), ["shininess", show(m.shininess)]]
  }

  /** The lines written for a material. */
  function FormatMaterial(m: Material, show: real -> string): seq<string>
  {
    JoinLines(MaterialTokens(m, show))
  }

  /** Lines written from lists of tokens, one line per list, with single spaces between the tokens. */
  function JoinLines(toks: seq<seq<string>>): (r: seq<string>)
    ensures |r| == |toks|
  {
    seq(|toks|, j requires 0 <= j < |toks| => Join(toks[j], ' '))
  }

  /** Tokens a line can be written from and read back: at least one, none empty, none with a space. */
  ghost predicate Spaceless(tokens: seq<string>)
  {
    tokens != [] && forall i :: 0 <= i < |tokens| ==> tokens[i] != [] && ' ' !in tokens[i]
  }

  /** The lines from `pos` on are non-empty and split at spaces into the lists of toks, in order. */
  ghost predicate SplitsInto(lines: seq<string>, pos: nat, toks: seq<seq<string>>)
  {
    pos + |toks| <= |lines| &&
    forall j :: 0 <= j < |toks| ==> lines[pos + j] != [] && Split(lines[pos + j], ' ') == toks[j]
  }

  /** Lines written from lists of spaceless tokens split back into those lists. */
  lemma JoinedLinesSplit(lines: seq<string>, pos: nat, toks: seq<seq<string>>)
    requires pos + |toks| <= |lines| && lines[pos..pos + |toks|] == JoinLines(toks)
    requires forall j :: 0 <= j < |toks| ==> Spaceless(toks[j])
    ensures SplitsInto(lines, pos, toks)
  {
    forall j | 0 <= j < |toks|
      ensures lines[pos + j] != [] && Split(lines[pos + j], ' ') == toks[j]
    {
      assert lines[pos + j] == lines[pos..pos + |toks|][j] == Join(toks[j], ' ');
      SplitJoin(toks[j], ' ');
    }
  }

  /** A non-empty material line does what its tokens say. */
  lemma MaterialLineAt(lines: seq<string>, pos: nat, tokens: seq<string>, m: Material, strtod: string -> real)
    requires pos < |lines| && lines[pos] != [] && Split(lines[pos], ' ') == tokens
    requires MaterialLine(tokens, m, strtod).Some?
    ensures MaterialFrom(lines, pos, m, strtod) ==
      match MaterialLine(tokens, m, strtod).value
      case Continue(m') => MaterialFrom(lines, pos + 1, m', strtod)
      case Finish(m') => Some((m', pos + 1))
  {
  }

  /**
   * The lines written for a material are read back as that material,
   * whatever came before them, and reading stops right after the
   * shininess line.
   */
  lemma FormattedMaterialParses(lines: seq<string>, pos: nat, m: Material, before: Material,
                                strtod: string -> real, show: real -> string)
    requires Inverts(strtod, show) && WritesOneToken(show)
    requires pos + 4 <= |lines| && lines[pos..pos + 4] == FormatMaterial(m, show)
    ensures MaterialFrom(lines, pos, before, strtod) == Some((m, pos + 4))
  {
    var t := MaterialTokens(m, show);
    JoinedLinesSplit(lines, pos, t);
    var m1 := before.(ambient := m.ambient);
    var m2 := m1.(diffuse := m.diffuse);
    var m3 := m2.(specular := m.specular);
    MaterialLineAt(lines, pos, t[0], before, strtod);
    MaterialLineAt(lines, pos + 1, t[1], m1, strtod);
    MaterialLineAt(lines, pos + 2, t[2], m2, strtod);
    MaterialLineAt(lines, pos + 3, t[3], m3, strtod);
  }

  // ---------------------------------------------------------------- create_scene

  /** What the camera block sets: the camera and the perspective. */
  datatype View = View(cam: Camera, persp: Perspective)

  /** The view the block starts from: the uninitialised locals, as 0. */
  const UnsetView := View(Camera(Zero3, Zero3, 0.0), Perspective(0.0, 0.0, 0.0, 0.0, 0.0, 0.0))

  /** The keywords of the camera block that take one number. */
  const FrustumKeys: set<string> := {"near", "far", "left", "right", "top", "bottom"}

  /** One camera block line applied to v, or None when it throws. */
  function ViewLine(tokens: seq<string>, v: View, strtod: string -> real): (r: Option<View>)
    ensures r.None? <==>
      !((|tokens| >= 4 && tokens[0] == "position") || (|tokens| >= 5 && tokens[0] == "orientation") ||
        (|tokens| >= 2 && tokens[0] in FrustumKeys))
    ensures r.Some? && tokens[0] == "position" ==> r.value == v.(cam := v.cam.(p := r.value.cam.p))
    ensures r.Some? && tokens[0] == "orientation" ==> r.value.persp == v.persp
    ensures r.Some? && tokens[0] in FrustumKeys ==> r.value.cam == v.cam
  {
    var c, q := v.cam, v.persp;
    if |tokens| >= 4 && tokens[0] == "position" then
      Some(v.(cam := c.(p := Vec3(strtod(tokens[1]), strtod(tokens[2]), strtod(tokens[3])))))
    else if |tokens| >= 5 && tokens[0] == "orientation" then
      Some(v.(cam := c.(o := Vec3(strtod(tokens[1]), strtod(tokens[2]), strtod(tokens[3])), angle := strtod(tokens[4]))))
    else if |tokens| >= 2 && tokens[0] == "near" then Some(v.(persp := q.(n := strtod(tokens[1]))))
    else if |tokens| >= 2 && tokens[0] == "far" then Some(v.(persp := q.(f := strtod(tokens[1]))))
    else if |tokens| >= 2 && tokens[0] == "left" then Some(v.(persp := q.(l := strtod(tokens[1]))))
    else if |tokens| >= 2 && tokens[0] == "right" then Some(v.(persp := q.(r := strtod(tokens[1]))))
    else if |tokens| >= 2 && tokens[0] == "top" then Some(v.(persp := q.(t := strtod(tokens[1]))))
    else if |tokens| >= 2 && tokens[0] == "bottom" then Some(v.(persp := q.(b := strtod(tokens[1]))))
    else None
  }

  /** The camera block from line `pos` on, having set v so far, and where reading stands after it. */
  function ViewFrom(lines: seq<string>, pos: nat, v: View, strtod: string -> real): (r: Option<(View, nat)>)
    requires pos <= |lines|
    ensures r.Some? ==> r.value.1 == BlockEnd(lines, pos)
    decreases |lines| - pos
  {
    if pos == |lines| then Some((v, pos))
    else if lines[pos] == [] then Some((v, pos + 1))
    else
      match ViewLine(Split(lines[pos], ' '), v, strtod)
      case None => None
      case Some(v') => ViewFrom(lines, pos + 1, v', strtod)
  }

  /** What create_scene builds: the camera, the perspective, the lights and the resolution; no objects yet. */
  datatype SceneSetup = SceneSetup(cam: Camera, persp: Perspective, lights: seq<LightRecord>, xres: int, yres: int)

  /** The camera block, then the lights block that follows it. */
  function SceneSetupFrom(lines: seq<string>, pos: nat, strtod: string -> real, xres: int, yres: int)
    : Option<(SceneSetup, nat)>
    requires pos <= |lines|
  {
    match ViewFrom(lines, pos, UnsetView, strtod)
    case None => None
    case Some((v, k)) =>
      match LightsFrom(lines, k, strtod)
      case None => None
      case Some((ls, next)) => Some((SceneSetup(v.cam, v.persp, ls, xres, yres), next))
  }

  /** The loop of create_scene over the camera block. */
  method ReadView(lines: seq<string>, pos: nat, strtod: string -> real) returns (r: Option<View>, next: nat)
    requires pos <= |lines|
    ensures r.None? <==> ViewFrom(lines, pos, UnsetView, strtod).None?
    ensures r.Some? ==> (r.value, next) == ViewFrom(lines, pos, UnsetView, strtod).value
    ensures next <= |lines|
  {
    var v := View(Camera(Zero3, Zero3, 0.0), Perspective(0.0, 0.0, 0.0, 0.0, 0.0, 0.0));
    var i := pos;
    while i < |lines| && lines[i] != []
      invariant pos <= i <= |lines|
      invariant ViewFrom(lines, i, v, strtod) == ViewFrom(lines, pos, UnsetView, strtod)
      decreases |lines| - i
    {
      var updated := ReadViewLine(lines[i], v, strtod);
      if updated.None? {
        return None, i + 1;
      }
      v := updated.value;
      i := i + 1;
    }
    next := if i < |lines| then i + 1 else i;
    return Some(v), next;
  }

  /** The body of the camera block loop: one line's tokens set a camera or frustum value, or the line throws. */
  method ReadViewLine(line: string, v: View, strtod: string -> real) returns (r: Option<View>)
    ensures r == ViewLine(Split(line, ' '), v, strtod)
  {
    var tokens := StrSplit(line, ' ');
    var info := if tokens == [] then "" else tokens[0];
    var c, q := v.cam, v.persp;
    if |tokens| >= 4 && info == "position" {
      c := c.(p := Vec3(strtod(tokens[1]), strtod(tokens[2]), strtod(tokens[3])));
    } else if |tokens| >= 5 && info == "orientation" {
      c := c.(o := Vec3(strtod(tokens[1]), strtod(tokens[2]), strtod(tokens[3])), angle := strtod(tokens[4]));
    } else if |tokens| >= 2 && info == "near" {
      q := q.(n := strtod(tokens[1]));
    } else if |tokens| >= 2 && info == "far" {
      q := q.(f := strtod(tokens[1]));
    } else if |tokens| >= 2 && info == "left" {
      q := q.(l := strtod(tokens[1]));
    } else if |tokens| >= 2 && info == "right" {
      q := q.(r := strtod(tokens[1]));
    } else if |tokens| >= 2 && info == "top" {
      q := q.(t := strtod(tokens[1]));
    } else if |tokens| >= 2 && info == "bottom" {
      q := q.(b := strtod(tokens[1]));
    } else {
      return None;
    }
    return Some(View(c, q));
  }

  /**
   * create_scene: the camera block, then the lights block, with the
   * resolution passed through; None when either block throws. The scene
   * holds no objects yet.
   */
  method CreateScene(lines: seq<string>, pos: nat, strtod: string -> real, xres: int, yres: int)
    returns (r: Option<SceneSetup>, next: nat)
    requires pos <= |lines|
    ensures r.None? <==> SceneSetupFrom(lines, pos, strtod, xres, yres).None?
    ensures r.Some? ==> (r.value, next) == SceneSetupFrom(lines, pos, strtod, xres, yres).value
    ensures r.Some? ==> r.value.xres == xres && r.value.yres == yres
  {
    var view, k := ReadView(lines, pos, strtod);
    if view.None? {
      return None, k;
    }
    var ls, after := CreateLights(lines, k, strtod);
    if ls.None? {
      return None, after;
    }
    return Some(SceneSetup(view.value.cam, view.value.persp, ls.value, xres, yres)), after;
  }

  /** The tokens of the eight lines written for a view: the two camera lines, then the six frustum lines. */
  function ViewTokens(v: View, show: real -> string): seq<seq<string>>
  {
    var c, q := v.cam, v.persp;
    [["position"] + Show3(c.p, show), ["orientation"] + Show3(c.o, show) + [show(c.angle)],
     ["near", show(q.n)], ["far", show(q.f)], ["left", show(q.l)],
     ["right", show(q.r)], ["top", show(q.t)], ["bottom", show(q.b)]]
  }

  /** The lines written for a view. */
  function FormatView(v: View, show: real -> string): seq<string>
  {
    JoinLines(ViewTokens(v, show))
  }

  /** A non-empty camera block line does what its tokens say. */
  lemma ViewLineAt(lines: seq<string>, pos: nat, tokens: seq<string>, v: View, v': View, strtod: string -> real)
    requires pos < |lines| && lines[pos] != [] && Split(lines[pos], ' ') == tokens
    requires ViewLine(tokens, v, strtod) == Some(v')
    ensures ViewFrom(lines, pos, v, strtod) == ViewFrom(lines, pos + 1, v', strtod)
  {
  }

  /**
   * A camera block written as the eight lines of a view and closed by an
   * empty line is read back as that view, whatever the starting values,
   * and reading stops just after the empty line.
   */
  lemma FormattedViewParses(lines: seq<string>, pos: nat, v: View, before: View,
                            strtod: string -> real, show: real -> string)
    requires Inverts(strtod, show) && WritesOneToken(show)
    requires pos + 9 <= |lines| && lines[pos..pos + 8] == FormatView(v, show) && lines[pos + 8] == []
    ensures ViewFrom(lines, pos, before, strtod) == Some((v, pos + 9))
  {
    var t := ViewTokens(v, show);
    JoinedLinesSplit(lines, pos, t);
    var c := v.cam;
    var v1 := before.(cam := before.cam.(p := c.p));
    ViewLineAt(lines, pos, t[0], before, v1, strtod);
    ViewLineAt(lines, pos + 1, t[1], v1, View(c, before.persp), strtod);
    assert CopyFrustum(before.persp, v.persp, 0) == before.persp;
    FrustumLinesParse(lines, pos, v, before.persp, 2, strtod, show);
  }

  /** The perspective p with its first k frustum values, in file order, taken from q. */
  function CopyFrustum(p: Perspective, q: Perspective, k: nat): Perspective
  {
    Perspective(if k > 0 then q.n else p.n, if k > 1 then q.f else p.f, if k > 2 then q.l else p.l,
                if k > 3 then q.r else p.r, if k > 4 then q.t else p.t, if k > 5 then q.b else p.b)
  }

  /** Frustum line j (2 <= j < 8) of v sets its frustum value and nothing else. */
  lemma FrustumLineSets(v: View, p: Perspective, j: nat, strtod: string -> real, show: real -> string)
    requires Inverts(strtod, show) && 2 <= j < 8
    ensures ViewLine(ViewTokens(v, show)[j], View(v.cam, CopyFrustum(p, v.persp, j - 2)), strtod)
         == Some(View(v.cam, CopyFrustum(p, v.persp, j - 1)))
  {
  }

  /** Reading frustum line j (2 <= j < 8) of v takes its value from v. */
  lemma FrustumLineAt(lines: seq<string>, pos: nat, v: View, p: Perspective, j: nat,
                      strtod: string -> real, show: real -> string)
    requires Inverts(strtod, show)
    requires SplitsInto(lines, pos, ViewTokens(v, show))
    requires 2 <= j < 8
    ensures ViewFrom(lines, pos + j, View(v.cam, CopyFrustum(p, v.persp, j - 2)), strtod)
         == ViewFrom(lines, pos + j + 1, View(v.cam, CopyFrustum(p, v.persp, j - 1)), strtod)
  {
    var t := ViewTokens(v, show);
    assert lines[pos + j] != [] && Split(lines[pos + j], ' ') == t[j];
    FrustumLineSets(v, p, j, strtod, show);
    ViewLineAt(lines, pos + j, t[j], View(v.cam, CopyFrustum(p, v.persp, j - 2)),
               View(v.cam, CopyFrustum(p, v.persp, j - 1)), strtod);
  }

  /**
   * From frustum line j (2 <= j <= 8) on, with the values before line j
   * already taken from v, the rest of the frustum lines and the empty line
   * after them complete the view v.
   */
  lemma {:induction false} FrustumLinesParse(lines: seq<string>, pos: nat, v: View, p: Perspective, j: nat,
                                             strtod: string -> real, show: real -> string)
    requires Inverts(strtod, show)
    requires pos + 9 <= |lines| && lines[pos + 8] == []
    requires SplitsInto(lines, pos, ViewTokens(v, show))
    requires 2 <= j <= 8
    ensures ViewFrom(lines, pos + j, View(v.cam, CopyFrustum(p, v.persp, j - 2)), strtod) == Some((v, pos + 9))
    decreases 8 - j
  {
    if j == 8 {
      assert CopyFrustum(p, v.persp, 6) == v.persp;
    } else {
      FrustumLineAt(lines, pos, v, p, j, strtod, show);
      FrustumLinesParse(lines, pos, v, p, j + 1, strtod, show);
    }
  }

  /**
   * A scene header written as the camera block, an empty line, the lights
   * block and an empty line is read back as that camera, perspective and
   * lights, and reading goes on after the second empty line.
   */
  lemma FormattedSceneParses(lines: seq<string>, pos: nat, v: View, lights: seq<LightRecord>, xres: int, yres: int,
                             strtod: string -> real, show: real -> string)
    requires Inverts(strtod, show) && WritesOneToken(show)
    requires forall i :: 0 <= i < |lights| ==> lights[i].position.w == 1.0
    requires pos + 9 <= |lines| && lines[pos..pos + 8] == FormatView(v, show) && lines[pos + 8] == []
    requires pos + 9 + |lights| < |lines| && lines[pos + 9 + |lights|] == []
    requires forall i :: 0 <= i < |lights| ==> lines[pos + 9 + i] == FormatLight(lights[i], show)
    ensures SceneSetupFrom(lines, pos, strtod, xres, yres)
         == Some((SceneSetup(v.cam, v.persp, lights, xres, yres), pos + 10 + |lights|))
  {
    FormattedViewParses(lines, pos, v, UnsetView, strtod, show);
    FormattedLightsParse(lines, pos + 9, lights, strtod, show);
  }
}
