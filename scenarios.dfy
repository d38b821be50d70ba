/**
  Concrete runs of the model: the pattern "cat" against a three-line source
  with and without `-x`, `-i` and `-v`, and `-c` over two labelled files.
 */
module Scenarios {
  import opened Wrappers
  import opened Strings
  import opened Matching
  import opened Filtering
  import opened Output
  import opened Grep

  /** A case fold that lowers the ASCII capitals and keeps every other character. */
  function AsciiLower(c: char): (d: char)
    ensures 'A' <= c <= 'Z' ==> d as int == c as int + 32
    ensures !('A' <= c <= 'Z') ==> d == c
  {
    if 'A' <= c <= 'Z' then (c as int + 32) as char else c
  }

  const Lines: seq<string> := ["cat food", "dog food", "Cat!"]

  /** A pattern whose first character never appears in a text does not occur in it. */
  lemma AbsentFirstChar(pat: string, text: string)
    requires pat != [] && pat[0] !in text
    ensures !IsSubstring(pat, text)
  {
  }

  /** Literal "cat" selects only the first line. */
  lemma PlainSearch(regex: RegexCompiler, fold: char -> char)
    ensures FilterLines(Lines, CompileRegex("cat", false, false, regex, fold), false, false) == ["cat food"]
  {
    assert OccursAt("cat", "cat food", 0);
    AbsentFirstChar("cat", "dog food");
    AbsentFirstChar("cat", "Cat!");
    var s := CompileRegex("cat", false, false, regex, fold);
    assert Lines[1..][1..] == ["Cat!"];
    assert FilterLines(Lines[1..], s, false, false) == FilterLines(["Cat!"], s, false, false);
  }

  /** Under `-x` the pattern "cat food" selects only the line equal to it. */
  lemma FullLineSearch(regex: RegexCompiler, fold: char -> char)
    ensures FilterLines(Lines, CompileRegex("cat food", false, false, regex, fold), false, true) == ["cat food"]
  {
  }

  /** How `AsciiLower` folds the three lines and the pattern. */
  lemma FoldedLines()
    ensures FoldCase(AsciiLower, "cat") == "cat"
    ensures FoldCase(AsciiLower, "cat food") == "cat food"
    ensures FoldCase(AsciiLower, "dog food") == "dog food"
    ensures FoldCase(AsciiLower, "Cat!") == "cat!"
  {
  }

  /** The verdicts of case-insensitive "cat" on the three lines. */
  lemma CaseInsensitiveVerdicts(regex: RegexCompiler)
    ensures var s := CompileRegex("cat", false, true, regex, AsciiLower);
            s.search("cat food") && !s.search("dog food") && s.search("Cat!")
  {
    FoldedLines();
    assert OccursAt("cat", "cat food", 0);
    assert OccursAt("cat", "cat!", 0);
    AbsentFirstChar("cat", "dog food");
  }

  /** A searcher that selects the first and last of the three lines keeps exactly those. */
  lemma FilterFirstAndLast(s: Searcher, invertMode: bool)
    requires MatchLine(Lines[0], s, invertMode, false) && !MatchLine(Lines[1], s, invertMode, false)
    requires MatchLine(Lines[2], s, invertMode, false)
    ensures FilterLines(Lines, s, invertMode, false) == ["cat food", "Cat!"]
  {
  }

  /** A searcher that selects only the middle line keeps exactly it. */
  lemma FilterMiddle(s: Searcher, invertMode: bool)
    requires !MatchLine(Lines[0], s, invertMode, false) && MatchLine(Lines[1], s, invertMode, false)
    requires !MatchLine(Lines[2], s, invertMode, false)
    ensures FilterLines(Lines, s, invertMode, false) == ["dog food"]
  {
  }

  /** With `-i` the capitalised third line is selected too. */
  lemma CaseInsensitiveSearch(regex: RegexCompiler)
    ensures FilterLines(Lines, CompileRegex("cat", false, true, regex, AsciiLower), false, false) ==
            ["cat food", "Cat!"]
  {
    CaseInsensitiveVerdicts(regex);
    FilterFirstAndLast(CompileRegex("cat", false, true, regex, AsciiLower), false);
  }

  /** With `-i -v` only the line without "cat" in any case is selected. */
  lemma CaseInsensitiveInverted(regex: RegexCompiler)
    ensures FilterLines(Lines, CompileRegex("cat", false, true, regex, AsciiLower), true, false) ==
            ["dog food"]
  {
    CaseInsensitiveVerdicts(regex);
    FilterMiddle(CompileRegex("cat", false, true, regex, AsciiLower), true);
  }

  const CountOpts := Options("x", false, false, false, false, true, false, false)

  /** `-c` over a.txt = ["x", "y"] and b.txt = ["x"] with pattern "x" prints "a.txt:1" and "b.txt:1". */
  lemma CountTwoFiles(regex: RegexCompiler, fold: char -> char)
    ensures var fs := map["a.txt" := ["x", "y"], "b.txt" := ["x"]];
            var files := ["a.txt", "b.txt"];
            AllRows(SourceInputs(files, fs, []), SourceLabels(files, CountOpts),
                    CompileRegex("x", false, false, regex, fold), CountOpts) == ["a.txt:1", "b.txt:1"]
  {
    var fs := map["a.txt" := ["x", "y"], "b.txt" := ["x"]];
    var files := ["a.txt", "b.txt"];
    assert SourceInputs(files, fs, []) == [["x", "y"], ["x"]];
    assert SourceLabels(files, CountOpts) == [Some("a.txt"), Some("b.txt")];
    var s := CompileRegex("x", false, false, regex, fold);
    assert OccursAt("x", "x", 0);
    AbsentFirstChar("x", "y");
    CountTwoSources(s);
  }

  /** Each of the two sources has one selected line for a searcher that finds "x" and not "y". */
  lemma OneSelectedEach(s: Searcher)
    requires s.search("x") && !s.search("y")
    ensures |FilterLines(StripLines(["x", "y"]), s, false, false)| == 1
    ensures |FilterLines(StripLines(["x"]), s, false, false)| == 1
  {
  }

  /** The same run for any searcher that finds "x" and not "y". */
  lemma CountTwoSources(s: Searcher)
    requires s.search("x") && !s.search("y")
    ensures AllRows([["x", "y"], ["x"]], [Some("a.txt"), Some("b.txt")], s, CountOpts) ==
            ["a.txt:1", "b.txt:1"]
  {
    var inputs := [["x", "y"], ["x"]];
    var labels := [Some("a.txt"), Some("b.txt")];
    OneSelectedEach(s);
    assert NatToString(1) == "1";
    CountRows(inputs, labels, s, CountOpts);
    var rows := AllRows(inputs, labels, s, CountOpts);
    assert Prefix(labels[0]) == "a.txt:" && Prefix(labels[1]) == "b.txt:";
    assert rows[0] == "a.txt:" + "1" && rows[1] == "b.txt:" + "1";
    assert "a.txt:" + "1" == "a.txt:1" && "b.txt:" + "1" == "b.txt:1";
    assert |rows| == 2;
  }

  /**
    One existing and one missing file: the missing one is the only one
    reported, so by `Run` nothing reaches standard output whatever a.txt holds.
   */
  lemma MissingFileReported(content: seq<string>)
    ensures var fs := map["a.txt" := content];
            MissingFiles(["a.txt", "b.txt"], fs) == ["b.txt"] &&
            Diagnostics(MissingFiles(["a.txt", "b.txt"], fs)) == ["No such file: b.txt"]
  {
    var fs := map["a.txt" := content];
    assert ["a.txt", "b.txt"][1..] == ["b.txt"];
    assert "b.txt" !in fs && "a.txt" in fs;
    assert MissingFiles(["b.txt"], fs) == ["b.txt"] + MissingFiles([], fs);
    assert MissingFiles(["a.txt", "b.txt"], fs) == [] + MissingFiles(["b.txt"], fs);
    assert Diagnostics(["b.txt"])[0] == "No such file: " + "b.txt";
    assert "No such file: " + "b.txt" == "No such file: b.txt";
  }
}
