/**
  The decision logic of `main` in task01-grep/grep.py: the abort on a
  missing file, the choice of labels, and the loop that filters and shapes
  every source in order.

  The file system is a map from the names of existing files to the lines
  `readlines` returns for them; a name is missing when it is not a key.
  Standard input is the given list of raw lines. The rows written to
  standard output and to standard error are returned instead of printed.
 */
module Grep {
  import opened Wrappers
  import opened Strings
  import opened Matching
  import opened Filtering
  import opened Output

  /** The parsed command line: `pattern`, `-E`, `-v`, `-i`, `-x`, `-c`, `-l`, `-L`. */
  datatype Options = Options(pattern: string, regex: bool, invert: bool, ignore: bool,
                             fullmatch: bool, counting: bool, onlyFiles: bool, onlyNotFiles: bool)

  /** `-l` or `-L`: the modes that print labels rather than lines. */
  predicate ListMode(opts: Options)
  {
    opts.onlyFiles || opts.onlyNotFiles
  }

  /** What a run writes: rows for standard output and rows for standard error. */
  datatype Outcome = Outcome(stdout: seq<string>, stderr: seq<string>)

  type FileSystem = map<string, seq<string>>

  /** The named files that exist, in the order given. */
  function ExistingFiles(files: seq<string>, fs: FileSystem): (r: seq<string>)
    ensures forall f :: f in r <==> f in files && f in fs
    ensures IsSubsequence(r, files)
    ensures forall f :: multiset(r)[f] == if f in fs then multiset(files)[f] else 0
    ensures (forall f :: f in files ==> f in fs) ==> r == files
    decreases |files|
  {
    if files == [] then []
    else
      var rest := ExistingFiles(files[1..], fs);
      assert files == [files[0]] + files[1..];
      if files[0] in fs then
        var r := [files[0]] + rest;
        assert r[1..] == rest;
        r
      else rest
  }

  /** The named files that do not exist, in the order given. */
  function MissingFiles(files: seq<string>, fs: FileSystem): (r: seq<string>)
    ensures forall f :: f in r <==> f in files && f !in fs
    ensures IsSubsequence(r, files)
    ensures forall f :: multiset(r)[f] == if f in fs then 0 else multiset(files)[f]
    decreases |files|
  {
    if files == [] then []
    else
      var rest := MissingFiles(files[1..], fs);
      assert files == [files[0]] + files[1..];
      if files[0] in fs then rest
      else
        var r := [files[0]] + rest;
        assert r[1..] == rest;
        r
  }

  /**
    The existence check splits the named files in two: the existing and the
    missing ones merge back into the given list, each name in exactly one.
   */
  lemma {:induction false} ExistenceSplit(files: seq<string>, fs: FileSystem)
    ensures IsInterleaving(files, ExistingFiles(files, fs), MissingFiles(files, fs))
    decreases |files|
  {
    if files != [] {
      ExistenceSplit(files[1..], fs);
      var e := ExistingFiles(files, fs);
      var m := MissingFiles(files, fs);
      if files[0] in fs {
        assert e[0] == files[0] && e[1..] == ExistingFiles(files[1..], fs);
        assert m == MissingFiles(files[1..], fs);
      } else {
        assert m[0] == files[0] && m[1..] == MissingFiles(files[1..], fs);
        assert e == ExistingFiles(files[1..], fs);
      }
    }
  }

  /** One diagnostic per missing file, in order. */
  function Diagnostics(missing: seq<string>): (r: seq<string>)
    ensures |r| == |missing|
    ensures forall i :: 0 <= i < |r| ==> r[i] == "No such file: " + missing[i]
  {
    seq(|missing|, i requires 0 <= i < |missing| => "No such file: " + missing[i])
  }

  /**
    The label of every source. Standard input is one unlabelled source; a
    single file is unlabelled unless `-l` or `-L` is given; otherwise every
    file is labelled with its own name.
   */
  function SourceLabels(files: seq<string>, opts: Options): (r: seq<Option<string>>)
    ensures |r| == if files == [] then 1 else |files|
    ensures forall i :: 0 <= i < |r| ==>
              (r[i] == None <==> files == [] || (|files| == 1 && !ListMode(opts)))
    ensures forall i :: 0 <= i < |r| && r[i].Some? ==> r[i].value == files[i]
  {
    if files == [] || (|files| == 1 && !ListMode(opts)) then [None]
    else seq(|files|, i requires 0 <= i < |files| => Some(files[i]))
  }

  /** The raw lines of every source: standard input alone, or each named file's. */
  function SourceInputs(files: seq<string>, fs: FileSystem, stdin: seq<string>): (r: seq<seq<string>>)
    requires forall f :: f in files ==> f in fs
    ensures |r| == if files == [] then 1 else |files|
    ensures files == [] ==> r == [stdin]
    ensures forall i :: 0 <= i < |files| ==> r[i] == fs[files[i]]
  {
    if files == [] then [stdin] else seq(|files|, i requires 0 <= i < |files| => fs[files[i]])
  }

  /** Under `-l` and `-L` every label must be truthy. */
  predicate LabelsFit(labels: seq<Option<string>>, opts: Options)
  {
    ListMode(opts) ==> forall i :: 0 <= i < |labels| ==> IsTruthy(labels[i])
  }

  /** The rows one source contributes: strip, filter, shape. */
  function SourceRows(lines: seq<string>, source: Option<string>, searcher: Searcher,
                      opts: Options): seq<string>
    requires ListMode(opts) ==> IsTruthy(source)
  {
    PrepareOutput(FilterLines(StripLines(lines), searcher, opts.invert, opts.fullmatch),
                  source, opts.counting, opts.onlyFiles, opts.onlyNotFiles)
  }

  /** The rows of all sources, source by source in the given order. */
  function AllRows(inputs: seq<seq<string>>, labels: seq<Option<string>>, searcher: Searcher,
                   opts: Options): seq<string>
    requires |inputs| == |labels| && LabelsFit(labels, opts)
    decreases |inputs|
  {
    if inputs == [] then []
    else SourceRows(inputs[0], labels[0], searcher, opts) +
         AllRows(inputs[1..], labels[1..], searcher, opts)
  }

  /**
    The loop of `main`: every source in turn is stripped, filtered and
    shaped, and its rows are appended to what was printed before.
   */
  method EmitSources(allLines: seq<seq<string>>, sources: seq<Option<string>>, searcher: Searcher,
                     opts: Options) returns (rows: seq<string>)
    requires |allLines| == |sources| && LabelsFit(sources, opts)
    ensures rows == AllRows(allLines, sources, searcher, opts)
  {
    rows := [];
    var k := 0;
    while k < |allLines|
      invariant 0 <= k <= |allLines|
      invariant rows + AllRows(allLines[k..], sources[k..], searcher, opts) ==
                AllRows(allLines, sources, searcher, opts)
    {
      var lines := StripLines(allLines[k]);
      var matchedLines := FilterLines(lines, searcher, opts.invert, opts.fullmatch);
      var outputLines := PrepareOutput(matchedLines, sources[k], opts.counting,
                                       opts.onlyFiles, opts.onlyNotFiles);
      ghost var rest := AllRows(allLines[k + 1..], sources[k + 1..], searcher, opts);
      assert AllRows(allLines[k..], sources[k..], searcher, opts) == outputLines + rest by {
        assert allLines[k..][1..] == allLines[k + 1..];
        assert sources[k..][1..] == sources[k + 1..];
      }
      assert rows + (outputLines + rest) == (rows + outputLines) + rest;
      rows := rows + outputLines;
      k := k + 1;
    }
    assert allLines[k..] == [] && sources[k..] == [];
  }

  /**
    `main` after argument parsing. When a named file is missing, nothing is
    written to standard output and standard error names every missing file;
    otherwise standard error stays empty and standard output holds the rows
    of every source in order, with one matcher compiled for all of them.
    `-l`/`-L` on standard input would fail the label assertion, so callers
    must name files then; no file has an empty name.
   */
  method Run(opts: Options, files: seq<string>, fs: FileSystem, stdin: seq<string>,
             regex: RegexCompiler, fold: char -> char) returns (out: Outcome)
    requires ListMode(opts) ==> files != []
    requires "" !in fs
    ensures MissingFiles(files, fs) != [] ==>
              out == Outcome([], Diagnostics(MissingFiles(files, fs)))
    ensures MissingFiles(files, fs) == [] ==>
              out == Outcome(AllRows(SourceInputs(files, fs, stdin), SourceLabels(files, opts),
                                     CompileRegex(opts.pattern, opts.regex, opts.ignore, regex, fold),
                                     opts), [])
  {
    var allLines: seq<seq<string>>;
    var sources: seq<Option<string>>;
    if files != [] {
      var existing := ExistingFiles(files, fs);
      var nonexistent := MissingFiles(files, fs);
      if nonexistent != [] {
        out := Outcome([], Diagnostics(nonexistent));
        return;
      }
      assert existing == files;
      allLines := seq(|existing|, i requires 0 <= i < |existing| => fs[existing[i]]);
      sources := seq(|existing|, i requires 0 <= i < |existing| => Some(existing[i]));
    } else {
      allLines := [stdin];
      sources := [None];
    }
    if |files| == 1 && !opts.onlyFiles && !opts.onlyNotFiles {
      sources := [None];
    }
    assert allLines == SourceInputs(files, fs, stdin);
    assert sources == SourceLabels(files, opts);

    var searcher := CompileRegex(opts.pattern, opts.regex, opts.ignore, regex, fold);
    var rows := EmitSources(allLines, sources, searcher, opts);
    out := Outcome(rows, []);
  }

  // ---------------------------------------------------------------------------
  // Properties of the rows a run prints
  // ---------------------------------------------------------------------------

  /** The rows of consecutive groups of sources are the concatenation of each group's rows. */
  lemma {:induction false} AllRowsAppend(a: seq<seq<string>>, la: seq<Option<string>>,
                                         b: seq<seq<string>>, lb: seq<Option<string>>,
                                         searcher: Searcher, opts: Options)
    requires |a| == |la| && |b| == |lb| && LabelsFit(la, opts) && LabelsFit(lb, opts)
    ensures LabelsFit(la + lb, opts)
    ensures AllRows(a + b, la + lb, searcher, opts) ==
            AllRows(a, la, searcher, opts) + AllRows(b, lb, searcher, opts)
    decreases |a|
  {
    if a != [] {
      assert (a + b)[1..] == a[1..] + b;
      assert (la + lb)[1..] == la[1..] + lb;
      AllRowsAppend(a[1..], la[1..], b, lb, searcher, opts);
    } else {
      assert a + b == b && la + lb == lb;
    }
  }

  /** Under `-c` one source prints one row: its prefix and its number of selected lines. */
  lemma CountRowOfSource(lines: seq<string>, source: Option<string>, searcher: Searcher, opts: Options)
    requires opts.counting && !ListMode(opts)
    ensures SourceRows(lines, source, searcher, opts) ==
            [Prefix(source) + NatToString(|FilterLines(StripLines(lines), searcher, opts.invert, opts.fullmatch)|)]
  {
  }

  /** Under `-c` each source prints exactly one row: its prefix and its number of selected lines. */
  lemma {:induction false} CountRows(inputs: seq<seq<string>>, labels: seq<Option<string>>,
                                     searcher: Searcher, opts: Options)
    requires |inputs| == |labels| && opts.counting && !ListMode(opts)
    ensures var rows := AllRows(inputs, labels, searcher, opts);
            |rows| == |inputs| &&
            forall i :: 0 <= i < |rows| ==>
              rows[i] == Prefix(labels[i]) +
                         NatToString(|FilterLines(StripLines(inputs[i]), searcher, opts.invert, opts.fullmatch)|)
    decreases |inputs|
  {
    if inputs != [] {
      CountRows(inputs[1..], labels[1..], searcher, opts);
      CountRowOfSource(inputs[0], labels[0], searcher, opts);
      var rows := AllRows(inputs, labels, searcher, opts);
      var rest := AllRows(inputs[1..], labels[1..], searcher, opts);
      assert rows == SourceRows(inputs[0], labels[0], searcher, opts) + rest;
      forall i | 1 <= i < |rows|
        ensures rows[i] == Prefix(labels[i]) +
                NatToString(|FilterLines(StripLines(inputs[i]), searcher, opts.invert, opts.fullmatch)|)
      {
        assert rows[i] == rest[i - 1];
        assert inputs[1..][i - 1] == inputs[i] && labels[1..][i - 1] == labels[i];
      }
    }
  }

  /** Sources labelled with the given names, in order. */
  function Labelled(names: seq<string>): (r: seq<Option<string>>)
    ensures |r| == |names|
    ensures forall i :: 0 <= i < |r| ==> r[i] == Some(names[i])
  {
    seq(|names|, i requires 0 <= i < |names| => Some(names[i]))
  }

  /**
    `-l` and `-L` split the sources: the names printed by one and by the
    other merge back into all the names, each name printed by exactly one.
   */
  lemma {:induction false} ListModesSplitSources(inputs: seq<seq<string>>, names: seq<string>,
                                                 searcher: Searcher, opts: Options)
    requires |inputs| == |names| && forall i :: 0 <= i < |names| ==> names[i] != ""
    ensures var lOpts := opts.(onlyFiles := true, onlyNotFiles := false);
            var nlOpts := opts.(onlyFiles := false, onlyNotFiles := true);
            LabelsFit(Labelled(names), lOpts) && LabelsFit(Labelled(names), nlOpts) &&
            IsInterleaving(names, AllRows(inputs, Labelled(names), searcher, lOpts),
                                  AllRows(inputs, Labelled(names), searcher, nlOpts))
    decreases |inputs|
  {
    var lOpts := opts.(onlyFiles := true, onlyNotFiles := false);
    var nlOpts := opts.(onlyFiles := false, onlyNotFiles := true);
    if inputs != [] {
      ListModesSplitSources(inputs[1..], names[1..], searcher, opts);
      assert Labelled(names)[1..] == Labelled(names[1..]);
      var matched := FilterLines(StripLines(inputs[0]), searcher, opts.invert, opts.fullmatch);
      ListModesComplement(matched, Some(names[0]), opts.counting);
      var l := AllRows(inputs, Labelled(names), searcher, lOpts);
      var nl := AllRows(inputs, Labelled(names), searcher, nlOpts);
      var l' := AllRows(inputs[1..], Labelled(names[1..]), searcher, lOpts);
      var nl' := AllRows(inputs[1..], Labelled(names[1..]), searcher, nlOpts);
      if matched != [] {
        assert l == [names[0]] + l' && nl == nl';
        assert l[0] == names[0] && l[1..] == l';
      } else {
        assert l == l' && nl == [names[0]] + nl';
        assert nl[0] == names[0] && nl[1..] == nl';
      }
    }
  }

  /**
    The same split for a run over existing files: every file is listed by
    exactly one of `-l` and `-L`, in the order the files were given.
   */
  lemma ListModesSplitFiles(files: seq<string>, fs: FileSystem, stdin: seq<string>,
                            searcher: Searcher, opts: Options)
    requires files != [] && MissingFiles(files, fs) == [] && "" !in fs
    ensures var lOpts := opts.(onlyFiles := true, onlyNotFiles := false);
            var nlOpts := opts.(onlyFiles := false, onlyNotFiles := true);
            var inputs := SourceInputs(files, fs, stdin);
            IsInterleaving(files, AllRows(inputs, SourceLabels(files, lOpts), searcher, lOpts),
                                  AllRows(inputs, SourceLabels(files, nlOpts), searcher, nlOpts))
  {
    var lOpts := opts.(onlyFiles := true, onlyNotFiles := false);
    var nlOpts := opts.(onlyFiles := false, onlyNotFiles := true);
    assert SourceLabels(files, lOpts) == Labelled(files);
    assert SourceLabels(files, nlOpts) == Labelled(files);
    ListModesSplitSources(SourceInputs(files, fs, stdin), files, searcher, opts);
  }

  /**
    One existing file without `-l`/`-L` is printed unlabelled; in the default
    mode the output is exactly the selected, stripped lines.
   */
  lemma SingleFileRows(file: string, fs: FileSystem, stdin: seq<string>, searcher: Searcher,
                       opts: Options)
    requires file in fs && !ListMode(opts)
    ensures var matched := FilterLines(StripLines(fs[file]), searcher, opts.invert, opts.fullmatch);
            AllRows(SourceInputs([file], fs, stdin), SourceLabels([file], opts), searcher, opts) ==
            if opts.counting then [NatToString(|matched|)] else matched
  {
    var matched := FilterLines(StripLines(fs[file]), searcher, opts.invert, opts.fullmatch);
    var inputs := SourceInputs([file], fs, stdin);
    assert inputs == [fs[file]];
    assert SourceLabels([file], opts) == [None];
    assert AllRows(inputs, [None], searcher, opts) ==
           SourceRows(fs[file], None, searcher, opts) + AllRows([], [], searcher, opts);
    if opts.counting {
      CountIsNormalLength(matched, None);
    } else {
      UnlabelledRowsAreLines(matched, None);
    }
  }
}
