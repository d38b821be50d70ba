/**
  Pattern compilation and the per-line verdict (`compile_regex` and
  `match_line` in task01-grep/grep.py).

  A compiled pattern is seen through the two queries the program asks of it:
  does it occur somewhere in a line (`search`), and does it match the whole
  line (`fullmatch`). In literal mode both are defined here exactly. The
  regular-expression engine used with `-E` is not modelled: it is a parameter,
  `regex`, mapping a pattern and the case-insensitivity flag to a searcher.
  Case-insensitive literal matching compares strings after a per-character
  `fold`, which is also a parameter.
 */
module Matching {
  import opened Strings

  /** What a compiled pattern answers about a line. */
  datatype Searcher = Searcher(search: string -> bool, fullmatch: string -> bool)

  /** The foreign regular-expression compiler: pattern, ignore-case flag. */
  type RegexCompiler = (string, bool) -> Searcher

  /** Applies the case fold to every character of `s`. */
  function FoldCase(fold: char -> char, s: string): (r: string)
    ensures |r| == |s|
    ensures forall i :: 0 <= i < |s| ==> r[i] == fold(s[i])
  {
    seq(|s|, i requires 0 <= i < |s| => fold(s[i]))
  }

  /** The text a literal pattern is compared against, and the pattern itself, under the mode. */
  function Folded(ignoreMode: bool, fold: char -> char, s: string): string
  {
    if ignoreMode then FoldCase(fold, s) else s
  }

  /**
    `compile_regex`: outside `-E` the pattern is escaped, so it matches
    literally; the whole matcher is case-insensitive when `ignoreMode` is set.
    In literal mode `search` holds exactly when the (folded) pattern is a
    substring of the (folded) line and `fullmatch` exactly when the two are
    equal; in `-E` mode the searcher is whatever the engine compiles.
   */
  function CompileRegex(pattern: string, regexMode: bool, ignoreMode: bool,
                        regex: RegexCompiler, fold: char -> char): (r: Searcher)
    ensures regexMode ==> r == regex(pattern, ignoreMode)
    ensures !regexMode ==> forall line :: r.search(line) <==>
              IsSubstring(Folded(ignoreMode, fold, pattern), Folded(ignoreMode, fold, line))
    ensures !regexMode ==> forall line :: r.fullmatch(line) <==>
              Folded(ignoreMode, fold, line) == Folded(ignoreMode, fold, pattern)
  {
    if regexMode then regex(pattern, ignoreMode)
    else
      var p := Folded(ignoreMode, fold, pattern);
      assert forall line :: Contains(Folded(ignoreMode, fold, line), p) <==>
                            IsSubstring(p, Folded(ignoreMode, fold, line)) by {
        forall line ensures Contains(Folded(ignoreMode, fold, line), p) <==>
                            IsSubstring(p, Folded(ignoreMode, fold, line)) {
          ContainsIffSubstring(Folded(ignoreMode, fold, line), p);
        }
      }
      Searcher(line => Contains(Folded(ignoreMode, fold, line), p),
               line => Folded(ignoreMode, fold, line) == p)
  }

  /** The raw verdict of the searcher on one line, before inversion. */
  function RawMatch(line: string, searcher: Searcher, fullmatchMode: bool): bool
  {
    if fullmatchMode then searcher.fullmatch(line) else searcher.search(line)
  }

  /** `match_line`: the line is selected iff the raw verdict differs from `invertMode`. */
  function MatchLine(line: string, searcher: Searcher, invertMode: bool, fullmatchMode: bool): bool
  {
    invertMode != RawMatch(line, searcher, fullmatchMode)
  }

  /** Inverting flips the verdict, and without inversion the verdict is the raw one. */
  lemma InvertFlips(line: string, searcher: Searcher, fullmatchMode: bool)
    ensures MatchLine(line, searcher, true, fullmatchMode) == !MatchLine(line, searcher, false, fullmatchMode)
    ensures MatchLine(line, searcher, false, fullmatchMode) == RawMatch(line, searcher, fullmatchMode)
  {
  }

  /**
    Case-sensitive literal mode: a line is selected iff the pattern is a
    substring of it (or equal to it under `-x`), flipped by `-v`.
   */
  lemma LiteralMatchLine(pattern: string, line: string, invertMode: bool, fullmatchMode: bool,
                         regex: RegexCompiler, fold: char -> char)
    ensures MatchLine(line, CompileRegex(pattern, false, false, regex, fold), invertMode, fullmatchMode)
            <==> invertMode != (if fullmatchMode then line == pattern else IsSubstring(pattern, line))
  {
  }

  /** In literal mode, with or without `-i`, a full-line match is also a substring match. */
  lemma FullMatchImpliesSearch(pattern: string, line: string, ignoreMode: bool,
                               regex: RegexCompiler, fold: char -> char)
    ensures var s := CompileRegex(pattern, false, ignoreMode, regex, fold);
            RawMatch(line, s, true) ==> RawMatch(line, s, false)
  {
  }

  /** The converse fails: "cat" occurs in "cat food", which it does not match in full. */
  lemma SearchDoesNotImplyFullMatch(regex: RegexCompiler, fold: char -> char)
    ensures var s := CompileRegex("cat", false, false, regex, fold);
            RawMatch("cat food", s, false) && !RawMatch("cat food", s, true)
  {
  }
}
