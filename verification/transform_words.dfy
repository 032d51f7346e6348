/**
 * The word-driven transformation reader of hw0 Part2 (transform.cpp and
 * parse_transform.cpp). It loops on `ifs >> type` with a `char type`:
 *
 * - 'r' extracts four words n1..n4 (the axis, then the angle);
 * - 't' and 's' extract three words n1..n3 (the vector);
 * - any other character ends the reading. transform.cpp prints a message;
 *   parse_transform.cpp throws.
 *
 * The record is used whether or not its extractions succeeded. When the
 * stream runs dry halfway through a record, the words not read keep the
 * previous record's values. The record is still used, and the next `>>`
 * fails and ends the loop.
 */
module TransformWords {
  import opened Wrappers
  import opened LinAlg
  import opened Streams
  import opened TransformLines

  /** What the reader collected, and whether it stopped at an unknown record type. */
  datatype WordRead = WordRead(specs: seq<TransformSpec>, unknown: bool)

  /** One more transformation read in front of what follows it. */
  function Prepend(spec: TransformSpec, r: WordRead): WordRead
  {
    WordRead([spec] + r.specs, r.unknown)
  }

  /**
   * The reader on the stream ws, where the string variables n1..n4 hold
   * `vars` at the start.
   */
  function WordSpecs(ws: seq<string>, vars: seq<string>, strtod: string -> real): (r: WordRead)
    requires IsWordStream(ws) && |vars| == 4
    decreases |ws|
  {
    match ExtractChar(ws)
    case None => WordRead([], false)
    case Some(Extracted(c, rest)) =>
      if c == 'r' then
        var (ok, ns, rest2) := ExtractWords(rest, vars);
        var spec := RotationSpec(Vec3(strtod(ns[0]), strtod(ns[1]), strtod(ns[2])), strtod(ns[3]));
        Prepend(spec, WordSpecs(rest2, [ns[0], ns[1], ns[2], ns[3]], strtod))
      else if c == 't' || c == 's' then
        var (ok, ns, rest2) := ExtractWords(rest, [vars[0], vars[1], vars[2]]);
        var v := Vec3(strtod(ns[0]), strtod(ns[1]), strtod(ns[2]));
        var spec := if c == 't' then TranslationSpec(v) else ScalingSpec(v);
        Prepend(spec, WordSpecs(rest2, [ns[0], ns[1], ns[2], vars[3]], strtod))
      else
        WordRead([], true)
  }

  /**
   * One record of the stream, whose type c has been read leaving `after`:
   * the transformation it yields, and where reading goes on.
   */
  lemma WordSpecsStep(ws: seq<string>, c: char, after: seq<string>, vars: seq<string>, strtod: string -> real)
    requires IsWordStream(ws) && |vars| == 4 && ExtractChar(ws) == Some(Extracted(c, after))
    ensures c != 'r' && c != 't' && c != 's' ==> WordSpecs(ws, vars, strtod) == WordRead([], true)
    ensures c == 'r' ==>
      var chain := ExtractWords(after, vars);
      IsWordStream(chain.2) && |chain.2| < |ws| &&
      WordSpecs(ws, vars, strtod)
      == Prepend(RotationSpec(Vec3(strtod(chain.1[0]), strtod(chain.1[1]), strtod(chain.1[2])), strtod(chain.1[3])),
                 WordSpecs(chain.2, [chain.1[0], chain.1[1], chain.1[2], chain.1[3]], strtod))
    ensures c == 't' || c == 's' ==>
      var chain := ExtractWords(after, [vars[0], vars[1], vars[2]]);
      var v := Vec3(strtod(chain.1[0]), strtod(chain.1[1]), strtod(chain.1[2]));
      IsWordStream(chain.2) && |chain.2| < |ws| &&
      WordSpecs(ws, vars, strtod)
      == Prepend(if c == 't' then TranslationSpec(v) else ScalingSpec(v),
                 WordSpecs(chain.2, [chain.1[0], chain.1[1], chain.1[2], vars[3]], strtod))
  {
  }

  /** Moving one transformation from what is left to read onto what was read. */
  lemma ReadOn(done: seq<TransformSpec>, spec: TransformSpec, before: WordRead, after: WordRead)
    requires before == Prepend(spec, after)
    ensures (done + [spec]) + after.specs == done + before.specs
    ensures after.unknown == before.unknown
  {
  }

  // ---------------------------------------------------------------- writing transformations as words

  /** x is written as one word that strtod reads back as x. */
  predicate NumberReadsBack(strtod: string -> real, show: real -> string, x: real)
  {
    show(x) != [] && strtod(show(x)) == x
  }

  /** Every number of spec is written as a word that reads back exactly. */
  predicate SpecReadsBack(spec: TransformSpec, strtod: string -> real, show: real -> string)
  {
    match spec
    case RotationSpec(u, angle) =>
      NumberReadsBack(strtod, show, u.x) && NumberReadsBack(strtod, show, u.y) &&
      NumberReadsBack(strtod, show, u.z) && NumberReadsBack(strtod, show, angle)
    case TranslationSpec(v) =>
      NumberReadsBack(strtod, show, v.x) && NumberReadsBack(strtod, show, v.y) && NumberReadsBack(strtod, show, v.z)
    case ScalingSpec(v) =>
      NumberReadsBack(strtod, show, v.x) && NumberReadsBack(strtod, show, v.y) && NumberReadsBack(strtod, show, v.z)
  }

  predicate SpecsReadBack(specs: seq<TransformSpec>, strtod: string -> real, show: real -> string)
  {
    forall i :: 0 <= i < |specs| ==> SpecReadsBack(specs[i], strtod, show)
  }

  /** The words of the records, one record per transformation, in order. */
  function SpecsWords(specs: seq<TransformSpec>, show: real -> string): seq<string>
  {
    if specs == [] then [] else SpecTokens(specs[0], show) + SpecsWords(specs[1..], show)
  }

  /** The values n1..n4 hold after the reader has read the record of spec in full. */
  function VarsAfter(spec: TransformSpec, show: real -> string, vars: seq<string>): (r: seq<string>)
    requires |vars| == 4
    ensures |r| == 4
  {
    var toks := SpecTokens(spec, show);
    if spec.RotationSpec? then [toks[1], toks[2], toks[3], toks[4]] else [toks[1], toks[2], toks[3], vars[3]]
  }

  /** A stream that is empty or whose next record type is not r, t or s. */
  predicate EndsReading(ws: seq<string>)
  {
    IsWordStream(ws) && (ws == [] || (ws[0][0] != 'r' && ws[0][0] != 't' && ws[0][0] != 's'))
  }

  /** Such a stream yields nothing more; an unknown record type is reported. */
  lemma EndOfRecords(ws: seq<string>, vars: seq<string>, strtod: string -> real)
    requires EndsReading(ws) && |vars| == 4
    ensures WordSpecs(ws, vars, strtod) == WordRead([], ws != [])
  {
  }

  /** Reading the words of one transformation gives that transformation, then goes on after them. */
  lemma ReadSpecWords(spec: TransformSpec, rest: seq<string>, vars: seq<string>,
                      strtod: string -> real, show: real -> string)
    requires SpecReadsBack(spec, strtod, show) && IsWordStream(rest) && |vars| == 4
    ensures IsWordStream(SpecTokens(spec, show) + rest)
    ensures WordSpecs(SpecTokens(spec, show) + rest, vars, strtod)
         == Prepend(spec, WordSpecs(rest, VarsAfter(spec, show, vars), strtod))
  {
    var toks := SpecTokens(spec, show);
    var ws := toks + rest;
    var n := |toks| - 1;
    assert ExtractChar(ws) == Some(Extracted(toks[0][0], ws[1..]));
    assert ws[1..][..n] == toks[1..];
    assert ws[1..][n..] == rest;
  }

  /**
   * Transformations written one record each, followed by the end of the
   * stream or by a record of another type, are read back as exactly those
   * transformations, in order; the unknown flag says which of the two ended
   * the reading.
   */
  lemma {:induction false} SpecsWordsRead(specs: seq<TransformSpec>, tail: seq<string>, vars: seq<string>,
                                          strtod: string -> real, show: real -> string)
    requires SpecsReadBack(specs, strtod, show) && EndsReading(tail) && |vars| == 4
    ensures IsWordStream(SpecsWords(specs, show) + tail)
    ensures WordSpecs(SpecsWords(specs, show) + tail, vars, strtod) == WordRead(specs, tail != [])
  {
    if specs == [] {
      assert SpecsWords(specs, show) + tail == tail;
      EndOfRecords(tail, vars, strtod);
    } else {
      var spec := specs[0];
      var rest := SpecsWords(specs[1..], show) + tail;
      assert SpecReadsBack(spec, strtod, show) && SpecsReadBack(specs[1..], strtod, show);
      SpecsWordsRead(specs[1..], tail, VarsAfter(spec, show, vars), strtod, show);
      assert SpecsWords(specs, show) == SpecTokens(spec, show) + SpecsWords(specs[1..], show);
      AppendAssoc(SpecTokens(spec, show), SpecsWords(specs[1..], show), tail);
      ReadSpecWords(spec, rest, vars, strtod, show);
      assert [spec] + specs[1..] == specs;
    }
  }

  lemma AppendAssoc<T>(a: seq<T>, b: seq<T>, c: seq<T>)
    ensures (a + b) + c == a + (b + c)
  {
  }

  /**
   * A translation record cut short after its first number still yields a
   * translation: its other two coordinates come from the words the previous
   * record left in n2 and n3.
   */
  lemma TruncatedRecordUsesStaleWords(a: string, vars: seq<string>, strtod: string -> real)
    requires a != [] && |vars| == 4
    ensures WordSpecs(["t", a], vars, strtod)
         == WordRead([TranslationSpec(Vec3(strtod(a), strtod(vars[1]), strtod(vars[2])))], false)
  {
    var ws := ["t", a];
    assert ExtractChar(ws) == Some(Extracted('t', [a]));
    var chain := ExtractWords([a], [vars[0], vars[1], vars[2]]);
    assert chain.1 == [a, vars[1], vars[2]];
  }
}
