/**
 * The two ways the file readers of every homework consume text.
 *
 * `in >> x` skips whitespace and extracts either one character or one whole
 * word; a stream is modelled by the words still to be read.
 *
 * `getline(in, item, delim)` returns the characters up to the next `delim`
 * (which it consumes and drops). It fails only when nothing at all is left.
 * Repeated on one string, this is `strsplit` (hw1, hw2 and hw5 parser.cpp).
 * Repeated with '\n' on a file, it yields the file's lines, so a line-driven
 * reader is given those lines and the position of the next one.
 */
module Streams {
  import opened Wrappers

  // ---------------------------------------------------------------- `>>` extraction

  /** The words left in a stream once whitespace is skipped: none is empty. */
  predicate IsWordStream(ws: seq<string>)
  {
    forall i :: 0 <= i < |ws| ==> ws[i] != []
  }

  /** Every character still to be read, in order. */
  function Flatten(ws: seq<string>): string
  {
    if ws == [] then [] else ws[0] + Flatten(ws[1..])
  }

  /** What one extraction produced, and the stream after it. */
  datatype Extracted<T> = Extracted(value: T, rest: seq<string>)

  /**
   * `in >> c` for a `char c`: the first character of the next word. The
   * remainder of that word, if any, is the next thing read. The extraction
   * fails only at the end of the stream. No character is lost or repeated.
   */
  function ExtractChar(ws: seq<string>): (r: Option<Extracted<char>>)
    requires IsWordStream(ws)
    ensures r.None? <==> ws == []
    ensures r.Some? ==> IsWordStream(r.value.rest) && |r.value.rest| <= |ws|
    ensures r.Some? ==> Flatten(ws) == [r.value.value] + Flatten(r.value.rest)
  {
    if ws == [] then None
    else if |ws[0]| == 1 then
      assert ws[0] == [ws[0][0]];
      Some(Extracted(ws[0][0], ws[1..]))
    else
      var rest := [ws[0][1..]] + ws[1..];
      assert rest[1..] == ws[1..];
      assert ws[0] == [ws[0][0]] + ws[0][1..];
      Some(Extracted(ws[0][0], rest))
  }

  /** `in >> s` for a `string s`: the whole next word; fails only at the end of the stream. */
  function ExtractWord(ws: seq<string>): (r: Option<Extracted<string>>)
    ensures r.None? <==> ws == []
    ensures r.Some? ==> [r.value.value] + r.value.rest == ws
  {
    if ws == [] then None else Some(Extracted(ws[0], ws[1..]))
  }

  /**
   * `in >> n1 >> … >> nk` into string variables that hold `vars` before the
   * chain: each variable takes the next word while there is one. Once the
   * stream is exhausted, every later extraction fails and leaves its variable
   * as it was. The chain succeeds only when all k words were there.
   */
  function ExtractWords(ws: seq<string>, vars: seq<string>): (r: (bool, seq<string>, seq<string>))
    ensures r.0 <==> |vars| <= |ws|
    ensures |r.1| == |vars|
    ensures forall i :: 0 <= i < |vars| ==> r.1[i] == if i < |ws| then ws[i] else vars[i]
    ensures r.2 == if |vars| <= |ws| then ws[|vars|..] else []
  {
    if |vars| <= |ws| then (true, ws[..|vars|], ws[|vars|..])
    else (false, ws + vars[|ws|..], [])
  }

  /** A suffix of a word stream is a word stream. */
  lemma SuffixIsWordStream(ws: seq<string>, k: nat)
    requires IsWordStream(ws) && k <= |ws|
    ensures IsWordStream(ws[k..])
  {
  }

  // ---------------------------------------------------------------- getline and strsplit

  /** The position of the first `delim` at or after `from`, or |s| when there is none. */
  function NextDelim(s: string, from: nat, delim: char): (k: nat)
    requires from <= |s|
    ensures from <= k <= |s|
    ensures k < |s| ==> s[k] == delim
    ensures forall j :: from <= j < k ==> s[j] != delim
    decreases |s| - from
  {
    if from == |s| || s[from] == delim then from else NextDelim(s, from + 1, delim)
  }

  /**
   * The items that repeated `getline(iss, item, delim)` calls return, in
   * order. Two delimiters in a row give an empty item. A trailing delimiter
   * gives none. The empty string gives no items at all.
   */
  function Split(s: string, delim: char): seq<string>
    decreases |s|
  {
    if s == [] then []
    else
      var k := NextDelim(s, 0, delim);
      if k == |s| then [s] else [s[..k]] + Split(s[k + 1..], delim)
  }

  /** A non-empty string splits into at least one item. */
  lemma SplitNonEmpty(s: string, delim: char)
    requires s != []
    ensures Split(s, delim) != []
  {
  }

  /** The items with one `delim` between neighbours (the inverse of Split). */
  function Join(items: seq<string>, delim: char): string
  {
    if items == [] then []
    else if |items| == 1 then items[0]
    else items[0] + [delim] + Join(items[1..], delim)
  }

  /**
   * One `getline(iss, item, delim)` call from position pos: the characters
   * up to the next delimiter. The stream then stands after that delimiter,
   * or at the end when there is none.
   */
  method GetLine(s: string, pos: nat, delim: char) returns (item: string, next: nat)
    requires pos < |s|
    ensures item == s[pos..NextDelim(s, pos, delim)]
    ensures next == if NextDelim(s, pos, delim) < |s| then NextDelim(s, pos, delim) + 1 else |s|
    ensures pos < next
  {
    item := [];
    var i := pos;
    while i < |s| && s[i] != delim
      invariant pos <= i <= |s|
      invariant NextDelim(s, pos, delim) == NextDelim(s, i, delim)
      invariant item == s[pos..i]
    {
      item := item + [s[i]];
      i := i + 1;
    }
    next := if i < |s| then i + 1 else i;
  }

  /** strsplit: every item getline returns, in order. */
  method StrSplit(s: string, delim: char) returns (toks: seq<string>)
    ensures toks == Split(s, delim)
  {
    toks := [];
    var pos := 0;
    while pos < |s|
      invariant 0 <= pos <= |s|
      invariant toks + Split(s[pos..], delim) == Split(s, delim)
      decreases |s| - pos
    {
      var item, next := GetLine(s, pos, delim);
      SplitFrom(s, pos, delim);
      if NextDelim(s, pos, delim) == |s| {
        assert item == s[pos..];
        assert s[next..] == [];
      }
      assert Split(s[pos..], delim) == [item] + Split(s[next..], delim);
      toks := toks + [item];
      pos := next;
    }
    assert s[pos..] == [];
  }

  /** Unfolding Split on a suffix of s, at the suffix's first item. */
  lemma SplitFrom(s: string, pos: nat, delim: char)
    requires pos < |s|
    ensures NextDelim(s, pos, delim) < |s| ==>
      Split(s[pos..], delim) == [s[pos..NextDelim(s, pos, delim)]] + Split(s[NextDelim(s, pos, delim) + 1..], delim)
    ensures NextDelim(s, pos, delim) == |s| ==> Split(s[pos..], delim) == [s[pos..]]
  {
    NextDelimShift(s, pos, delim);
    SplitAt(s, pos, delim, NextDelim(s, pos, delim));
  }

  lemma SplitAt(s: string, pos: nat, delim: char, k: nat)
    requires pos < |s| && pos <= k <= |s|
    requires NextDelim(s[pos..], 0, delim) == k - pos
    ensures k < |s| ==> Split(s[pos..], delim) == [s[pos..k]] + Split(s[k + 1..], delim)
    ensures k == |s| ==> Split(s[pos..], delim) == [s[pos..]]
  {
    var t := s[pos..];
    var kt := k - pos;
    assert t[..kt] == s[pos..k];
    if k < |s| {
      assert t[kt + 1..] == s[k + 1..];
    }
  }

  /** The first delimiter of a suffix is the suffix's share of the first delimiter of s. */
  lemma NextDelimShift(s: string, pos: nat, delim: char)
    requires pos <= |s|
    ensures NextDelim(s[pos..], 0, delim) == NextDelim(s, pos, delim) - pos
  {
    var t := s[pos..];
    var a := NextDelim(t, 0, delim);
    var b := NextDelim(s, pos, delim) - pos;
    assert forall j :: 0 <= j < |t| ==> t[j] == s[pos + j];
    assert a < |t| ==> s[pos + a] == delim;
    assert b < |t| ==> t[b] == delim;
  }

  /** No item contains the delimiter. */
  lemma {:induction false} SplitItemsHaveNoDelim(s: string, delim: char)
    ensures forall i :: 0 <= i < |Split(s, delim)| ==> delim !in Split(s, delim)[i]
    decreases |s|
  {
    if s != [] {
      var k := NextDelim(s, 0, delim);
      if k < |s| {
        SplitItemsHaveNoDelim(s[k + 1..], delim);
        var toks := Split(s, delim);
        forall i | 0 <= i < |toks|
          ensures delim !in toks[i]
        {
          if i > 0 {
            assert toks[i] == Split(s[k + 1..], delim)[i - 1];
          }
        }
      }
    }
  }

  /**
   * Joining the items back gives the string, minus one trailing delimiter
   * if there was one: that is the only thing splitting loses.
   */
  lemma {:induction false} JoinSplit(s: string, delim: char)
    ensures s != [] && s[|s| - 1] == delim ==> Join(Split(s, delim), delim) + [delim] == s
    ensures !(s != [] && s[|s| - 1] == delim) ==> Join(Split(s, delim), delim) == s
    decreases |s|
  {
    if s != [] {
      var k := NextDelim(s, 0, delim);
      if k < |s| {
        var head := s[..k];
        var tail := s[k + 1..];
        var toks := Split(s, delim);
        var rest := Split(tail, delim);
        assert toks == [head] + rest;
        assert s == head + [delim] + tail;
        JoinSplit(tail, delim);
        if tail == [] {
          assert toks == [head];
          assert Join(toks, delim) + [delim] == s;
        } else {
          assert rest != [];
          assert toks[1..] == rest;
          assert Join(toks, delim) == head + [delim] + Join(rest, delim);
          assert tail[|tail| - 1] == s[|s| - 1];
          if s[|s| - 1] == delim {
            assert Join(toks, delim) + [delim] == head + [delim] + (Join(rest, delim) + [delim]);
          }
        }
      } else {
        assert s[|s| - 1] != delim;
      }
    }
  }

  /**
   * Splitting items joined by the delimiter gives the items back. This
   * needs at least one item, no item holding the delimiter, and a non-empty
   * last item.
   */
  lemma {:induction false} SplitJoin(items: seq<string>, delim: char)
    requires items != [] && items[|items| - 1] != []
    requires forall i :: 0 <= i < |items| ==> delim !in items[i]
    ensures Split(Join(items, delim), delim) == items
  {
    var w := items[0];
    var s := Join(items, delim);
    if |items| == 1 {
      var k := NextDelim(s, 0, delim);
      assert forall i :: 0 <= i < |s| ==> s[i] in w;
    } else {
      var rest := items[1..];
      var j := Join(rest, delim);
      assert s == w + [delim] + j;
      var k := NextDelim(s, 0, delim);
      assert forall i :: 0 <= i < |w| ==> s[i] == w[i] && s[i] in w;
      assert s[|w|] == delim;
      assert k == |w|;
      assert s[k + 1..] == j;
      SplitJoin(rest, delim);
      assert s[..k] == w;
    }
  }
}
