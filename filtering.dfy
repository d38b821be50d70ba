/**
  Preparing and selecting the lines of one source (`strip_lines` and
  `filter_lines` in task01-grep/grep.py).
 */
module Filtering {
  import opened Strings
  import opened Matching

  /**
    `strip_lines`: every raw line loses its trailing newlines. The number of
    lines is kept, each result is a prefix of its raw line that does not end
    in a newline, and only newlines were removed.
   */
  function StripLines(lines: seq<string>): (r: seq<string>)
    ensures |r| == |lines|
    ensures forall i :: 0 <= i < |r| ==>
              r[i] <= lines[i] && !EndsWithNewline(r[i]) && OnlyNewlines(lines[i][|r[i]|..])
  {
    seq(|lines|, i requires 0 <= i < |lines| => RStripNewlines(lines[i]))
  }

  /** `a` is obtained from `b` by deleting elements, keeping the order and any repeats. */
  ghost predicate IsSubsequence<T>(a: seq<T>, b: seq<T>)
    decreases |b|
  {
    a == [] ||
    (b != [] && ((a[0] == b[0] && IsSubsequence(a[1..], b[1..])) || IsSubsequence(a, b[1..])))
  }

  /** `c` is a merge of `a` and `b`: each position of `c` is taken, in order, from exactly one of them. */
  ghost predicate IsInterleaving<T>(c: seq<T>, a: seq<T>, b: seq<T>)
    decreases |c|
  {
    if c == [] then a == [] && b == []
    else
      (a != [] && a[0] == c[0] && IsInterleaving(c[1..], a[1..], b)) ||
      (b != [] && b[0] == c[0] && IsInterleaving(c[1..], a, b[1..]))
  }

  /** A merge splits its elements, with their multiplicities, between the two parts. */
  lemma {:induction false} InterleavingSizes<T>(c: seq<T>, a: seq<T>, b: seq<T>)
    requires IsInterleaving(c, a, b)
    ensures |a| + |b| == |c|
    ensures multiset(a) + multiset(b) == multiset(c)
    decreases |c|
  {
    if c != [] {
      assert c == [c[0]] + c[1..];
      if a != [] && a[0] == c[0] && IsInterleaving(c[1..], a[1..], b) {
        InterleavingSizes(c[1..], a[1..], b);
        assert a == [a[0]] + a[1..];
      } else {
        InterleavingSizes(c[1..], a, b[1..]);
        assert b == [b[0]] + b[1..];
      }
    }
  }

  /**
    `filter_lines`: the lines for which `match_line` holds, in input order.
    The result is no longer than the input and every line in it is selected.
   */
  function FilterLines(lines: seq<string>, searcher: Searcher, invertMode: bool,
                       fullmatchMode: bool): (r: seq<string>)
    ensures |r| <= |lines|
    ensures forall k :: 0 <= k < |r| ==> MatchLine(r[k], searcher, invertMode, fullmatchMode)
    decreases |lines|
  {
    if lines == [] then []
    else
      var rest := FilterLines(lines[1..], searcher, invertMode, fullmatchMode);
      if MatchLine(lines[0], searcher, invertMode, fullmatchMode) then [lines[0]] + rest else rest
  }

  /**
    Nothing selected is dropped and duplicates are kept: each distinct line
    occurs in the result as often as in the input if it is selected, and not
    at all otherwise.
   */
  lemma {:induction false} FilterKeepsMultiplicity(lines: seq<string>, searcher: Searcher,
                                                   invertMode: bool, fullmatchMode: bool, x: string)
    ensures multiset(FilterLines(lines, searcher, invertMode, fullmatchMode))[x] ==
            if MatchLine(x, searcher, invertMode, fullmatchMode) then multiset(lines)[x] else 0
    decreases |lines|
  {
    if lines != [] {
      FilterKeepsMultiplicity(lines[1..], searcher, invertMode, fullmatchMode, x);
      assert lines == [lines[0]] + lines[1..];
    }
  }

  /** The selected lines keep their input order. */
  lemma {:induction false} FilterIsSubsequence(lines: seq<string>, searcher: Searcher,
                                               invertMode: bool, fullmatchMode: bool)
    ensures IsSubsequence(FilterLines(lines, searcher, invertMode, fullmatchMode), lines)
    decreases |lines|
  {
    if lines != [] {
      var r := FilterLines(lines, searcher, invertMode, fullmatchMode);
      var rest := FilterLines(lines[1..], searcher, invertMode, fullmatchMode);
      FilterIsSubsequence(lines[1..], searcher, invertMode, fullmatchMode);
      if MatchLine(lines[0], searcher, invertMode, fullmatchMode) {
        assert r[0] == lines[0] && r[1..] == rest;
      } else {
        assert r == rest;
      }
    }
  }

  /**
    `-v` splits a source in two: the lines selected without it and the lines
    selected with it merge back into the input, so every position lands in
    exactly one of them and their lengths add up to the input's.
   */
  lemma {:induction false} InvertPartitions(lines: seq<string>, searcher: Searcher, fullmatchMode: bool)
    ensures IsInterleaving(lines, FilterLines(lines, searcher, false, fullmatchMode),
                                  FilterLines(lines, searcher, true, fullmatchMode))
    ensures |FilterLines(lines, searcher, false, fullmatchMode)| +
            |FilterLines(lines, searcher, true, fullmatchMode)| == |lines|
    ensures multiset(FilterLines(lines, searcher, false, fullmatchMode)) +
            multiset(FilterLines(lines, searcher, true, fullmatchMode)) == multiset(lines)
    decreases |lines|
  {
    var kept := FilterLines(lines, searcher, false, fullmatchMode);
    var dropped := FilterLines(lines, searcher, true, fullmatchMode);
    if lines != [] {
      InvertPartitions(lines[1..], searcher, fullmatchMode);
      var kept' := FilterLines(lines[1..], searcher, false, fullmatchMode);
      var dropped' := FilterLines(lines[1..], searcher, true, fullmatchMode);
      if RawMatch(lines[0], searcher, fullmatchMode) {
        assert kept[0] == lines[0] && kept[1..] == kept' && dropped == dropped';
      } else {
        assert dropped[0] == lines[0] && dropped[1..] == dropped' && kept == kept';
      }
    }
    InterleavingSizes(lines, kept, dropped);
  }
}
