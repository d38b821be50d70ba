/**
  Shaping the rows printed for one source (`prepare_output` in
  task01-grep/grep.py), driven by the `-c`, `-l` and `-L` flags.
 */
module Output {
  import opened Wrappers
  import opened Strings

  /** Python truthiness of an optional label: present and non-empty. */
  predicate IsTruthy(source: Option<string>)
  {
    source.Some? && source.value != ""
  }

  /** The row prefix: `label:` for a truthy label, nothing otherwise. */
  function Prefix(source: Option<string>): string
  {
    if IsTruthy(source) then source.value + ":" else ""
  }

  /**
    `prepare_output`. With `-l` or `-L` the label must be truthy and the
    result is the label alone or nothing: the label for `-l` exactly when
    some line matched, for `-L` exactly when none did (when both flags are
    given, `-L` decides). Otherwise `-c` gives one row, the prefixed decimal
    count, and the default gives every line, prefixed, in order.
   */
  function PrepareOutput(lines: seq<string>, source: Option<string>, countingMode: bool,
                         onlyFilesMode: bool, onlyNotFilesMode: bool): (r: seq<string>)
    requires onlyFilesMode || onlyNotFilesMode ==> IsTruthy(source)
    ensures onlyFilesMode || onlyNotFilesMode ==> r == [] || r == [source.value]
    ensures onlyFilesMode || onlyNotFilesMode ==>
              (r == [source.value] <==> if onlyNotFilesMode then lines == [] else lines != [])
    ensures !onlyFilesMode && !onlyNotFilesMode && countingMode ==>
              r == [Prefix(source) + NatToString(|lines|)]
    ensures !onlyFilesMode && !onlyNotFilesMode && !countingMode ==>
              |r| == |lines| && forall i :: 0 <= i < |r| ==> r[i] == Prefix(source) + lines[i]
  {
    if onlyFilesMode || onlyNotFilesMode then
      if (lines != []) != onlyNotFilesMode then [source.value] else []
    else
      var prefix := Prefix(source);
      var rows := if countingMode then [NatToString(|lines|)] else lines;
      seq(|rows|, i requires 0 <= i < |rows| => prefix + rows[i])
  }

  /** For one source, exactly one of `-l` and `-L` prints its label; the other prints nothing. */
  lemma ListModesComplement(lines: seq<string>, source: Option<string>, countingMode: bool)
    requires IsTruthy(source)
    ensures var l := PrepareOutput(lines, source, countingMode, true, false);
            var nl := PrepareOutput(lines, source, countingMode, false, true);
            (l == [source.value] && nl == []) || (l == [] && nl == [source.value])
  {
  }

  /**
    The `-c` row is the prefix followed by the numeral of the number of rows
    the default mode prints for the same lines.
   */
  lemma CountIsNormalLength(lines: seq<string>, source: Option<string>)
    ensures var c := PrepareOutput(lines, source, true, false, false);
            var n := PrepareOutput(lines, source, false, false, false);
            |c| == 1 && Prefix(source) <= c[0] &&
            IsDecimal(c[0][|Prefix(source)|..]) && DecimalValue(c[0][|Prefix(source)|..]) == |n|
  {
  }

  /** Without a truthy label the default mode prints the lines unchanged. */
  lemma UnlabelledRowsAreLines(lines: seq<string>, source: Option<string>)
    requires !IsTruthy(source)
    ensures PrepareOutput(lines, source, false, false, false) == lines
  {
    var r := PrepareOutput(lines, source, false, false, false);
    assert forall i :: 0 <= i < |r| ==> r[i] == "" + lines[i];
    assert forall i :: 0 <= i < |r| ==> r[i] == lines[i];
  }
}
