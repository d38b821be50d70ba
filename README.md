# A verified model of a small `grep`

This project models the line-selection and output-shaping core of a small
`grep` clone written in Python (`task01-grep/grep.py`). It covers five parts:

- the pattern compiler (`compile_regex`): outside `-E` the pattern is escaped,
  so it matches literally, and `-i` makes the whole matcher case-insensitive;
- the per-line verdict (`match_line`): substring search, or whole-line match
  under `-x`, XOR-ed with `-v`;
- the per-source filter (`strip_lines`, `filter_lines`);
- the output policy (`prepare_output`): `-l`, `-L`, `-c` and the default mode,
  with the `label:` prefix;
- the decision logic of `main`: a missing file aborts the run, a single file
  is unlabelled unless `-l` or `-L` is set, and sources are processed and
  printed in order.

Modules, one per component: `Strings` (substring search, decimal numerals,
trailing-newline removal), `Matching`, `Filtering`, `Output` and `Grep` (the
orchestration, as the method `Grep.Run` with a loop in `Grep.EmitSources`).
`Wrappers` holds the `Option` type used for labels. `Scenarios` proves what the model
gives on concrete inputs: `"cat"` against `["cat food", "dog food", "Cat!"]` with
and without `-x`, `-i` and `-v`, and `-c` over two labelled files.

How the environment is represented:

- A compiled pattern is a `Searcher`: the two queries the program asks of it,
  `search` and `fullmatch`. In literal mode both are defined exactly: `search`
  is substring search and `fullmatch` is equality. With `-i` both strings are
  first passed through a per-character case fold, `fold`, which is a parameter.
  With `-E` the searcher is produced by the regular-expression engine, which is
  a parameter (`regex`) and is not modelled.
- The file system is a map from the names of existing files to the raw lines
  `readlines` returns. A file exists when its name is a key. Standard input is
  a given list of raw lines.
- Printing is replaced by returning the rows: `Outcome(stdout, stderr)`.
- The parsed command line is the record `Grep.Options`.

Notes on the program's behaviour, which the model follows:

- The prefix is shown when the label is truthy, so an empty name counts as no
  label.
- `rstrip('\n')` removes every trailing newline, not just one.
- `prepare_output` is total over its three flags. With both `-l` and `-L`
  it behaves as `-L`, and `-c` is ignored under `-l`/`-L`. The argument
  parser's mutual exclusion is therefore not needed as a precondition.
- A label-requiring mode without a label is an assertion failure, not a
  configuration error. The model makes this a precondition.

## Model

| member | source | states |
|---|---|---|
| `Strings.Contains` | task01-grep/grep.py:59-61 | the left-to-right scan the escaped pattern's `search` performs; `Strings.ContainsIffSubstring` characterizes it as substring occurrence |
| `Strings.ContainsIffSubstring` | task01-grep/grep.py:59-61 | the search an escaped pattern performs holds exactly when the pattern occurs at some position of the line (both directions) |
| `Strings.NatToString` | task01-grep/grep.py:109 | `str(n)` is a non-empty string of decimal digits without a leading zero that denotes `n` |
| `Strings.RStripNewlines` | task01-grep/grep.py:48 | `rstrip('\n')` yields a prefix of the line that does not end in a newline, and only newlines were removed |
| `Strings.RStripNewlinesUnique` | task01-grep/grep.py:48 | any prefix with those three properties is the stripped line, so the properties determine the result |
| `Strings.RStripNewlinesIdempotent` | task01-grep/grep.py:48 | stripping an already stripped line changes nothing |
| `Matching.CompileRegex` | task01-grep/grep.py:51-61 | in literal mode `search` holds iff the (case-folded under `-i`) pattern is a substring of the (folded) line and `fullmatch` iff the two are equal; under `-E` the engine's searcher is used |
| `Matching.RawMatch` | task01-grep/grep.py:74 | the searcher's verdict before inversion: `fullmatch` under `-x`, `search` otherwise; `Matching.LiteralMatchLine` and `Matching.FullMatchImpliesSearch` characterize it in literal mode |
| `Matching.MatchLine` | task01-grep/grep.py:64-75 | `match_line`: the raw verdict XOR `-v`; `Matching.InvertFlips` and `Matching.LiteralMatchLine` characterize it |
| `Matching.InvertFlips` | task01-grep/grep.py:74-75 | `-v` returns exactly the negation of the verdict without it, and without `-v` the verdict is the raw match |
| `Matching.LiteralMatchLine` | task01-grep/grep.py:59-75 | case-sensitive literal mode selects a line iff the pattern is a substring of it (equal to it under `-x`), XOR `-v` |
| `Matching.FullMatchImpliesSearch` | task01-grep/grep.py:74 | in literal mode, with or without `-i`, a full-line match implies a substring match |
| `Matching.SearchDoesNotImplyFullMatch` | task01-grep/grep.py:74 | the converse fails: "cat" is found in "cat food" but does not match it in full |
| `Filtering.StripLines` | task01-grep/grep.py:42-48 | the number of lines is kept and no line ends in a newline; each is a prefix of its raw line from which only newlines were removed |
| `Filtering.FilterLines` | task01-grep/grep.py:78-87 | the result is no longer than the input and every line in it satisfies `match_line` |
| `Filtering.FilterKeepsMultiplicity` | task01-grep/grep.py:87 | each distinct line occurs in the result as often as in the input when selected and not at all otherwise (duplicates kept) |
| `Filtering.FilterIsSubsequence` | task01-grep/grep.py:87 | the result is an order-preserving subsequence of the input |
| `Filtering.InvertPartitions` | task01-grep/grep.py:75-87 | the results with and without `-v` merge back into the input, each position in exactly one; lengths and multisets add up to the input's |
| `Output.Prefix` | task01-grep/grep.py:107 | `label:` for a truthy label and nothing otherwise; `Output.UnlabelledRowsAreLines` and `Output.CountIsNormalLength` state its effect on the rows |
| `Output.PrepareOutput` | task01-grep/grep.py:90-111 | `-l`/`-L` need a truthy label and give the label or nothing (label iff some line matched for `-l`, iff none did for `-L`); `-c` gives one row, prefix then the numeral of the count; the default gives every line prefixed, in order |
| `Output.ListModesComplement` | task01-grep/grep.py:101-105 | for the same matched lines exactly one of `-l` and `-L` prints the label and the other prints nothing |
| `Output.CountIsNormalLength` | task01-grep/grep.py:107-110 | the `-c` row after its prefix is a decimal numeral whose value is the number of rows the default mode prints |
| `Output.UnlabelledRowsAreLines` | task01-grep/grep.py:107-110 | with no label or an empty one the default mode prints the lines unchanged |
| `Grep.ExistingFiles` | task01-grep/grep.py:13-26 | the named files that exist, in the given order and once per occurrence (an order-preserving subsequence with each name's multiplicity kept); all of them when none is missing |
| `Grep.MissingFiles` | task01-grep/grep.py:13-26 | the named files that do not exist, in the given order and once per occurrence (an order-preserving subsequence with each name's multiplicity kept) |
| `Grep.ExistenceSplit` | task01-grep/grep.py:20-26 | the existing and the missing files merge back into the given list, each position in exactly one |
| `Grep.Diagnostics` | task01-grep/grep.py:153-155 | one `No such file: <name>` row per missing file, in order |
| `Grep.SourceLabels` | task01-grep/grep.py:150-162 | labels are dropped iff standard input is read or exactly one file is given without `-l`/`-L`; otherwise source i is labelled with file i |
| `Grep.SourceInputs` | task01-grep/grep.py:150-159 | standard input alone when no file is named, otherwise the lines of each named file in order |
| `Grep.SourceRows` | task01-grep/grep.py:167-170 | the rows of one source: stripped, filtered, then shaped; `Grep.CountRows` and `Grep.SingleFileRows` characterize it |
| `Grep.AllRows` | task01-grep/grep.py:166-171 | the rows of all sources, source by source in order, against which `Grep.EmitSources` and `Grep.Run` are proved; `Grep.AllRowsAppend`, `Grep.CountRows` and `Grep.ListModesSplitSources` characterize it |
| `Grep.EmitSources` | task01-grep/grep.py:166-171 | the loop prints the rows of every source, stripped, filtered and shaped, in source order |
| `Grep.Run` | task01-grep/grep.py:145-171 | a missing file leaves standard output empty and reports every missing file; otherwise standard error is empty and standard output holds the rows of all sources in order with one compiled matcher |
| `Grep.AllRowsAppend` | task01-grep/grep.py:166-171 | the rows of two consecutive groups of sources are the concatenation of each group's rows |
| `Grep.CountRows` | task01-grep/grep.py:166-171 | under `-c` each source prints exactly one row, its prefix and the numeral of its number of selected lines |
| `Grep.ListModesSplitSources` | task01-grep/grep.py:101-105 | over labelled sources the names printed by `-l` and by `-L` merge back into all the names, each printed by exactly one |
| `Grep.ListModesSplitFiles` | task01-grep/grep.py:161-171 | in a run over existing files every file is listed by exactly one of `-l` and `-L`, in the given order |
| `Grep.SingleFileRows` | task01-grep/grep.py:161-162 | one file without `-l`/`-L` prints unlabelled rows: the selected stripped lines, or under `-c` the bare count |
| `Scenarios.PlainSearch` | task01-grep/grep.py:59-87 | literal "cat" selects only "cat food" from the three lines |
| `Scenarios.FullLineSearch` | task01-grep/grep.py:59-87 | under `-x` the pattern "cat food" selects only the line equal to it |
| `Scenarios.CaseInsensitiveSearch` | task01-grep/grep.py:59-87 | under `-i` (ASCII case fold) "cat" selects "cat food" and "Cat!" |
| `Scenarios.CaseInsensitiveInverted` | task01-grep/grep.py:59-87 | under `-i -v` "cat" selects only "dog food" |
| `Scenarios.MissingFileReported` | task01-grep/grep.py:150-156 | with a.txt present and b.txt missing, exactly b.txt is reported, whatever a.txt holds |
| `Scenarios.CountTwoFiles` | task01-grep/grep.py:145-171 | `-c` with pattern "x" over a.txt = ["x", "y"] and b.txt = ["x"] prints "a.txt:1" and "b.txt:1" |

## Left out

- Argument parsing (`parse_arguments`, argparse): the parsed flags are given as `Grep.Options`; the help text and the parser's mutual exclusion of `-c`, `-l`, `-L` are not modelled, and no proof needs the exclusion.
- File and terminal I/O (`read_files`, `split_files_by_existence` as a loop over `os.path.isfile`, reading standard input, `print_matched_lines`, writing to standard error): files are a map from names to raw lines and the printed rows are returned. The existence split is modelled as two functions over that map.
- The program reads the existing files before it checks for missing ones. Reading cannot fail in the modelled file system, so the model checks first. Read errors (a file without read permission, undecodable contents) are not modelled: in the program they would raise before any `No such file:` row is printed.
- The regular-expression engine behind `-E` and its compilation errors (`re.error`): the engine is a parameter of `Matching.CompileRegex`, and nothing is assumed about it.
- Python's exact case-insensitive matching (`re.IGNORECASE` on Unicode text): modelled as comparing strings after a per-character fold that is a parameter.
- `zip` stopping at the shorter list: the list of labels and the list of inputs always have the same length, so the loop covers both.
- Run: `-l`/`-L` when reading standard input fails the program's label assertion; the model requires files to be named in those modes. It also requires that no file has an empty name, which holds on any file system.
