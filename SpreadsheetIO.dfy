/**
 * The row transformations of `SpreadsheetIO` (the `sv2` format): on save
 * each row is cleaned and written as one `;`-separated line; on load each
 * non-blank line is split on `;`.  Opening, reading and writing the file are
 * not modelled: the save side produces the text written, and the load side
 * takes the text read.  Getting the rows out of a grid and building a grid
 * from rows are not modelled either.
 */
module SpreadsheetIO {
  import opened Strings

  // ---------------------------------------------------------------------
  // Saving
  // ---------------------------------------------------------------------

  /** A saved field: every `;` becomes `,`, and the value "0" is written empty. */
  function CleanField(v: string): (r: string)
    ensures ';' !in r
    ensures r == [] <==> v == [] || v == "0"
  {
    if v == "0" then "" else ReplaceChar(v, ';', ',')
  }

  /** A loaded field: every `,` becomes `;`. */
  function RestoreField(f: string): (r: string)
    ensures ',' !in r
  {
    ReplaceChar(f, ',', ';')
  }

  /** A field without `,` other than "0" is read back as it was. */
  lemma FieldRoundTrip(v: string)
    requires ',' !in v && v != "0"
    ensures RestoreField(CleanField(v)) == v
  {
    var r := RestoreField(CleanField(v));
    assert |r| == |v|;
    forall i | 0 <= i < |v| ensures r[i] == v[i] {
      assert v[i] != ',';
    }
  }

  /** The fields with trailing empty ones popped. */
  function TrimTrailing(row: seq<string>): (r: seq<string>)
    ensures r <= row
    ensures r == [] || r[|r| - 1] != ""
    ensures forall j :: |r| <= j < |row| ==> row[j] == ""
    decreases |row|
  {
    if row != [] && row[|row| - 1] == "" then TrimTrailing(row[..|row| - 1]) else row
  }

  /** The field-wise cleaning, before the trailing empty fields are popped. */
  function CleanFields(row: seq<string>): (r: seq<string>)
    ensures |r| == |row|
  {
    seq(|row|, i requires 0 <= i < |row| => CleanField(row[i]))
  }

  /** A row as it is saved. */
  function Cleaned(row: seq<string>): (r: seq<string>)
    ensures forall j :: 0 <= j < |r| ==> ';' !in r[j]
    ensures r == [] || r[|r| - 1] != ""
  {
    TrimTrailing(CleanFields(row))
  }

  /** The cleaning of one row: the list comprehension, then the popping loop. */
  method CleanRow(row: seq<string>) returns (r: seq<string>)
    ensures r == Cleaned(row)
    ensures r == [] || r[|r| - 1] != ""
    ensures |r| <= |row| && forall j :: 0 <= j < |r| ==> r[j] == CleanField(row[j])
  {
    r := seq(|row|, i requires 0 <= i < |row| => CleanField(row[i]));
    while r != [] && r[|r| - 1] == ""
      invariant r <= CleanFields(row)
      invariant TrimTrailing(r) == Cleaned(row)
      decreases |r|
    {
      r := r[..|r| - 1];
    }
  }

  /** The cleaning loop of `save_sheet`: each row of `values` is replaced by its cleaned form. */
  method CleanValues(values: array<seq<string>>)
    modifies values
    ensures forall i :: 0 <= i < values.Length ==> values[i] == Cleaned(old(values[i]))
  {
    for i := 0 to values.Length
      invariant forall j :: 0 <= j < i ==> values[j] == Cleaned(old(values[j]))
      invariant forall j :: i <= j < values.Length ==> values[j] == old(values[j])
    {
      var row := CleanRow(values[i]);
      values[i] := row;
    }
  }

  /** The line written for a cleaned row. */
  function Line(row: seq<string>): string
  {
    Join(row, ';') + "\n"
  }

  /** The lines `save_sheet` writes for `values`: one per row, then an empty line. */
  function SavedLines(values: seq<seq<string>>): (r: seq<string>)
    ensures |r| == |values| + 1 && r[|values|] == "\n"
    ensures forall i :: 0 <= i < |values| ==> r[i] == Line(Cleaned(values[i]))
  {
    seq(|values|, i requires 0 <= i < |values| => Line(Cleaned(values[i]))) + ["\n"]
  }

  /** The text of a file written line by line. */
  function Concat(lines: seq<string>): string
  {
    if lines == [] then [] else lines[0] + Concat(lines[1..])
  }

  /**
   * `save_sheet`, without the path handling: the rows are cleaned in place,
   * and the text written to the file is returned.
   */
  method SaveSheet(values: array<seq<string>>) returns (text: string)
    modifies values
    ensures forall i :: 0 <= i < values.Length ==> values[i] == Cleaned(old(values[i]))
    ensures text == Concat(SavedLines(old(values[..])))
  {
    ghost var before := values[..];
    CleanValues(values);
    var lines := seq(values.Length, i requires 0 <= i < values.Length reads values => Line(values[i]));
    assert lines + ["\n"] == SavedLines(before);
    text := Concat(lines + ["\n"]);
  }

  // ---------------------------------------------------------------------
  // Loading
  // ---------------------------------------------------------------------

  /** Index one past the end of the first line: after its `\n`, or the end of the text. */
  function LineEnd(text: string): (n: nat)
    requires text != []
    ensures 0 < n <= |text|
    ensures '\n' !in text[..n - 1]
    ensures n < |text| ==> text[n - 1] == '\n'
  {
    if text[0] == '\n' || |text| == 1 then 1
    else
      var n := 1 + LineEnd(text[1..]);
      assert text[..n - 1] == [text[0]] + text[1..][..n - 2];
      n
  }

  /** `readlines`: the lines of a text, each keeping its `\n`. */
  function ReadLines(text: string): seq<string>
    decreases |text|
  {
    if text == [] then [] else [text[..LineEnd(text)]] + ReadLines(text[LineEnd(text)..])
  }

  /** Reading the lines loses nothing: they make up the text again. */
  lemma {:induction false} ReadLinesLossless(text: string)
    ensures Concat(ReadLines(text)) == text
    decreases |text|
  {
    if text != [] {
      var n := LineEnd(text);
      ReadLinesLossless(text[n..]);
      assert text[..n] + text[n..] == text;
    }
  }

  /** A complete line: one `\n`, at its end. */
  predicate FullLine(line: string)
  {
    |line| > 0 && line[|line| - 1] == '\n' && '\n' !in line[..|line| - 1]
  }

  lemma {:induction false} LineEndOf(line: string, rest: string)
    requires FullLine(line)
    ensures LineEnd(line + rest) == |line|
    decreases |line|
  {
    var text := line + rest;
    if |line| > 1 {
      assert line[0] in line[..|line| - 1];
      assert text[1..] == line[1..] + rest;
      assert line[1..][..|line| - 2] == line[..|line| - 1][1..];
      LineEndOf(line[1..], rest);
    }
  }

  /** Reading back text written as complete lines gives those lines. */
  lemma {:induction false} ReadLinesConcat(lines: seq<string>)
    requires forall i :: 0 <= i < |lines| ==> FullLine(lines[i])
    ensures ReadLines(Concat(lines)) == lines
  {
    if lines != [] {
      var rest := Concat(lines[1..]);
      LineEndOf(lines[0], rest);
      var text := lines[0] + rest;
      assert text[..|lines[0]|] == lines[0] && text[|lines[0]|..] == rest;
      ReadLinesConcat(lines[1..]);
    }
  }

  /** What one line read adds: nothing if it is blank, else its fields split on `;`. */
  function LineRow(line: string): seq<seq<string>>
  {
    if Strip(line) == [] then [] else [Split(Strip(line), ';')]
  }

  /** The fields of the non-blank lines: the reading loop of `load_sheet`. */
  function SplitLines(lines: seq<string>): (r: seq<seq<string>>)
    ensures |r| <= |lines|
  {
    if lines == [] then [] else LineRow(lines[0]) + SplitLines(lines[1..])
  }

  function RestoreRow(row: seq<string>): (r: seq<string>)
    ensures |r| == |row|
    ensures forall j :: 0 <= j < |r| ==> ',' !in r[j]
  {
    seq(|row|, j requires 0 <= j < |row| => RestoreField(row[j]))
  }

  function RestoreRows(rows: seq<seq<string>>): (r: seq<seq<string>>)
    ensures |r| == |rows|
  {
    seq(|rows|, i requires 0 <= i < |rows| => RestoreRow(rows[i]))
  }

  /** The rows `load_sheet` builds from the lines of a file. */
  function LoadedRows(lines: seq<string>): seq<seq<string>>
  {
    RestoreRows(SplitLines(lines))
  }

  /** Every loaded row has at least one field, and no field holds `,`. */
  lemma LoadedRowsShape(lines: seq<string>, i: nat, j: nat)
    requires i < |LoadedRows(lines)|
    ensures |LoadedRows(lines)[i]| >= 1
    ensures j < |LoadedRows(lines)[i]| ==> ',' !in LoadedRows(lines)[i][j]
  {
    SplitLinesNonEmpty(lines, i);
  }

  lemma {:induction false} SplitLinesNonEmpty(lines: seq<string>, i: nat)
    requires i < |SplitLines(lines)|
    ensures |SplitLines(lines)[i]| >= 1
  {
    var head := LineRow(lines[0]);
    if i >= |head| {
      SplitLinesNonEmpty(lines[1..], i - |head|);
    }
  }

  /** A blank line adds no row. */
  lemma BlankLineSkipped(lines: seq<string>, line: string)
    requires Strip(line) == []
    ensures LoadedRows([line] + lines) == LoadedRows(lines)
  {
    assert ([line] + lines)[1..] == lines;
  }

  lemma AppendAssoc<T>(a: seq<T>, b: seq<T>, c: seq<T>)
    ensures a + (b + c) == (a + b) + c
  {
  }

  lemma SplitLinesStep(lines: seq<string>, i: nat)
    requires i < |lines|
    ensures SplitLines(lines[i..]) == LineRow(lines[i]) + SplitLines(lines[i + 1..])
  {
    assert lines[i..][0] == lines[i] && lines[i..][1..] == lines[i + 1..];
  }

  /**
   * `load_sheet`, without opening the file: the lines read are stripped, the
   * blank ones skipped and the others split on `;`; then every `,` becomes `;`.
   */
  method LoadSheet(lines: seq<string>) returns (rows: seq<seq<string>>)
    ensures rows == LoadedRows(lines)
  {
    var split := ReadRows(lines);
    rows := seq(|split|, i requires 0 <= i < |split| => RestoreRow(split[i]));
  }

  /** One line read: stripped, and split on `;` unless it is blank. */
  method ReadLine(line: string) returns (row: seq<seq<string>>)
    ensures row == LineRow(line)
    ensures |row| <= 1 && (row == [] <==> Strip(line) == [])
  {
    var stripped := Strip(line);
    if stripped != [] {
      return [Split(stripped, ';')];
    }
    return [];
  }

  /** The reading loop of `load_sheet`: the rows of the non-blank lines. */
  method ReadRows(lines: seq<string>) returns (split: seq<seq<string>>)
    ensures split == SplitLines(lines)
  {
    split := [];
    assert lines[0..] == lines;
    for i := 0 to |lines|
      invariant split + SplitLines(lines[i..]) == SplitLines(lines)
    {
      var row := ReadLine(lines[i]);
      ghost var later := SplitLines(lines[i + 1..]);
      SplitLinesStep(lines, i);
      AppendAssoc(split, row, later);
      split := split + row;
    }
    assert lines[|lines|..] == [];
  }

  // ---------------------------------------------------------------------
  // Saving, then loading
  // ---------------------------------------------------------------------

  /** The cleaned rows that are not empty: the ones that come back as rows. */
  function KeptCleaned(values: seq<seq<string>>): (r: seq<seq<string>>)
    ensures |r| <= |values|
  {
    if values == [] then []
    else (if Cleaned(values[0]) == [] then [] else [Cleaned(values[0])]) + KeptCleaned(values[1..])
  }

  /** No field of the row holds `\n`. */
  predicate NoNewline(row: seq<string>)
  {
    forall j :: 0 <= j < |row| ==> '\n' !in row[j]
  }

  /** Neither end of the text is whitespace, which `strip` would remove. */
  predicate EdgesKept(s: string)
  {
    s == [] || (!IsSpace(s[0]) && !IsSpace(s[|s| - 1]))
  }

  lemma {:induction false} JoinNoChar(fields: seq<string>, sep: char, c: char)
    requires c != sep && forall j :: 0 <= j < |fields| ==> c !in fields[j]
    ensures c !in Join(fields, sep)
  {
    if |fields| > 1 {
      JoinNoChar(fields[1..], sep, c);
    }
  }

  lemma JoinEmpty(fields: seq<string>, sep: char)
    requires fields == [] || fields[|fields| - 1] != ""
    ensures Join(fields, sep) == [] <==> fields == []
  {
    if |fields| > 1 {
      assert sep in Join(fields, sep) by {
        assert Join(fields, sep)[|fields[0]|] == sep;
      }
    }
  }

  /** `strip` of a line holding a cleaned row gives the row's joined text back. */
  lemma StripLine(s: string)
    requires EdgesKept(s)
    ensures Strip(s + "\n") == s
  {
    var t := s + "\n";
    if s == [] {
      assert IsSpace('\n');
    } else {
      assert StripStart(t) == t;
      assert t[..|t| - 1] == s;
      assert StripEnd(s) == s;
    }
  }

  /** The line saved for a row reads back as its cleaned fields, or as nothing when there are none. */
  lemma SavedLineRow(row: seq<string>)
    requires EdgesKept(Join(Cleaned(row), ';'))
    ensures LineRow(Line(Cleaned(row))) == if Cleaned(row) == [] then [] else [Cleaned(row)]
  {
    var c := Cleaned(row);
    StripLine(Join(c, ';'));
    JoinEmpty(c, ';');
    if c != [] {
      SplitJoin(c, ';');
    }
  }

  lemma {:induction false} SplitSaved(values: seq<seq<string>>)
    requires forall i :: 0 <= i < |values| ==> EdgesKept(Join(Cleaned(values[i]), ';'))
    ensures SplitLines(SavedLines(values)) == KeptCleaned(values)
  {
    var lines := SavedLines(values);
    if values == [] {
      assert lines == ["\n"];
      assert IsSpace('\n');
      assert lines[1..] == [];
    } else {
      assert lines[1..] == SavedLines(values[1..]);
      SplitSaved(values[1..]);
      SavedLineRow(values[0]);
    }
  }

  /** Every line written is a complete line when no field holds `\n`. */
  lemma SavedLinesFull(values: seq<seq<string>>)
    requires forall i :: 0 <= i < |values| ==> NoNewline(values[i])
    ensures forall i :: 0 <= i < |SavedLines(values)| ==> FullLine(SavedLines(values)[i])
  {
    forall i | 0 <= i < |values| ensures FullLine(SavedLines(values)[i]) {
      var row := values[i];
      var c := Cleaned(row);
      forall j | 0 <= j < |c| ensures '\n' !in c[j] {
        CleanedField(row, j);
        assert '\n' !in row[j];
      }
      JoinNoChar(c, ';', '\n');
      var line := Join(c, ';') + "\n";
      assert line[..|line| - 1] == Join(c, ';');
    }
    assert FullLine(SavedLines(values)[|values|]) by {
      assert "\n"[..0] == [];
    }
  }

  /** A field of a cleaned row is the cleaning of the field at the same place. */
  lemma CleanedField(row: seq<string>, j: nat)
    requires j < |Cleaned(row)|
    ensures j < |row| && Cleaned(row)[j] == CleanField(row[j])
  {
    assert Cleaned(row) <= CleanFields(row);
  }

  /**
   * Saving and loading again: the rows come back as their cleaned forms read
   * back (`,` turned into `;`), and rows that clean to nothing are skipped,
   * so the rows after them move up.  This needs fields without `\n` and
   * saved lines without whitespace at either end.
   */
  lemma SaveLoad(values: seq<seq<string>>)
    requires forall i :: 0 <= i < |values| ==> NoNewline(values[i])
    requires forall i :: 0 <= i < |values| ==> EdgesKept(Join(Cleaned(values[i]), ';'))
    ensures LoadedRows(ReadLines(Concat(SavedLines(values)))) == RestoreRows(KeptCleaned(values))
  {
    SavedLinesFull(values);
    ReadLinesConcat(SavedLines(values));
    SplitSaved(values);
  }

  /** Trailing empty fields are the same before and after cleaning when no field is "0". */
  lemma {:induction false} TrimClean(row: seq<string>)
    requires forall j :: 0 <= j < |row| ==> row[j] != "0"
    ensures TrimTrailing(CleanFields(row)) == CleanFields(TrimTrailing(row))
    decreases |row|
  {
    if row != [] {
      var init := row[..|row| - 1];
      assert CleanFields(row)[..|row| - 1] == CleanFields(init);
      if row[|row| - 1] == "" {
        TrimClean(init);
      }
    }
  }

  /**
   * A row without `,` and without the value "0" comes back exactly, except
   * for its trailing empty fields.
   */
  lemma RowRoundTrip(row: seq<string>)
    requires forall j :: 0 <= j < |row| ==> ',' !in row[j] && row[j] != "0"
    ensures RestoreRow(Cleaned(row)) == TrimTrailing(row)
  {
    TrimClean(row);
    var t := TrimTrailing(row);
    forall j | 0 <= j < |t| ensures RestoreRow(Cleaned(row))[j] == t[j] {
      assert t[j] == row[j];
      FieldRoundTrip(t[j]);
    }
  }
}
