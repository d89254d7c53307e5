/**
 * Cell coordinates and their textual form: base-26 column letters
 * (`col_num2text`, `col_text2num`) followed by the decimal row number.
 */
module Coordinates {
  import opened Wrappers
  import opened Strings

  /**
   * A (column, row) pair, 1-based for every cell the grid holds.  A
   * datatype's equality is structural, which is what `__eq__` and
   * `__hash__` provide for the Python class.
   */
  datatype Coord = Coord(col: nat, row: nat)

  /**
   * The largest column whose name the model renders: beyond it the first
   * character of `col_num2text` would leave the Basic Multilingual Plane
   * below the surrogate block.
   */
  const MaxModelledColumn: nat := 26 * (0xD800 - 64)

  /** Position of `c` in the string "~ABCDEFGHIJKLMNOPQRSTUVWXYZ" (so `~` is 0). */
  function LetterIndex(c: char): (r: Option<nat>)
    ensures r.Some? <==> c == '~' || IsUpper(c)
    ensures r.Some? ==> r.value <= 26
    ensures IsUpper(c) ==> r == Some((c as int) - 64)
  {
    if c == '~' then Some(0)
    else if IsUpper(c) then Some((c as int) - 64)
    else None
  }

  function Pow26(k: nat): (p: nat)
    ensures p >= 1
  {
    if k == 0 then 1 else 26 * Pow26(k - 1)
  }

  /** The place value of letter index `d` at position `k` from the right, by repeated multiplication by 26. */
  function Place(d: nat, k: nat): nat
  {
    if k == 0 then d else 26 * Place(d, k - 1)
  }

  /** A place value is the letter index times 26 to the power of its position. */
  lemma {:induction false} PlaceIsProduct(d: nat, k: nat)
    ensures Place(d, k) == d * Pow26(k)
  {
    if k > 0 {
      PlaceIsProduct(d, k - 1);
      calc {
        Place(d, k);
        26 * (d * Pow26(k - 1));
        { MulSwap(26, d, Pow26(k - 1)); }
        d * (26 * Pow26(k - 1));
      }
    }
  }

  lemma MulSwap(a: int, b: int, c: int)
    ensures a * (b * c) == b * (a * c)
  {
  }

  /**
   * The value `col_text2num` computes: the sum of each letter's index times
   * 26 to the power of its position counted from the right; None when a
   * character is not in the letter string (Python's `index` raises).
   */
  function ColumnValue(s: string): Option<nat>
  {
    if s == [] then Some(0)
    else
      var rest := ColumnValue(s[1..]);
      if LetterIndex(s[0]).Some? && rest.Some?
      then Some(Place(LetterIndex(s[0]).value, |s| - 1) + rest.value)
      else None
  }

  /** `col_text2num`: the loop over the reversed text with a running power of 26. */
  method ColText2Num(text: string) returns (r: Result<nat>)
    ensures r.Ok? <==> ColumnValue(text).Some?
    ensures r.Ok? ==> r.value == ColumnValue(text).value
    ensures r.Err? ==> r.error == MalformedCoordinates
  {
    var colNum: nat := 0;
    var power: nat := 1;
    var idx := 0;
    while idx < |text|
      invariant 0 <= idx <= |text|
      invariant power == Pow26(idx)
      invariant ColumnValue(text[|text| - idx..]) == Some(colNum)
    {
      var ch := text[|text| - 1 - idx];
      var d := LetterIndex(ch);
      if d.None? {
        NoLetterNoValue(text, |text| - 1 - idx);
        return Err(MalformedCoordinates);
      }
      ghost var t, suffix := text[|text| - 1 - idx..], text[|text| - idx..];
      assert t[0] == ch && t[1..] == suffix && |suffix| == idx;
      ColumnValueCons(t, d.value, colNum);
      PlaceIsProduct(d.value, idx);
      colNum := colNum + d.value * power;
      power := power * 26;
      idx := idx + 1;
    }
    assert text[|text| - idx..] == text;
    return Ok(colNum);
  }

  /** The value of a text is its first letter's place value plus the value of the rest. */
  lemma ColumnValueCons(t: string, d: nat, v: nat)
    requires |t| > 0 && LetterIndex(t[0]) == Some(d) && ColumnValue(t[1..]) == Some(v)
    ensures ColumnValue(t) == Some(Place(d, |t| - 1) + v)
  {
  }

  lemma {:induction false} NoLetterNoValue(s: string, k: nat)
    requires k < |s| && LetterIndex(s[k]).None?
    ensures forall j :: 0 <= j <= k ==> ColumnValue(s[j..]).None?
  {
    forall j | 0 <= j <= k ensures ColumnValue(s[j..]).None? {
      NoLetterSuffix(s, j, k);
    }
  }

  lemma {:induction false} NoLetterSuffix(s: string, j: nat, k: nat)
    requires j <= k < |s| && LetterIndex(s[k]).None?
    ensures ColumnValue(s[j..]).None?
    decreases k - j
  {
    if j < k {
      NoLetterSuffix(s, j + 1, k);
      assert s[j..][1..] == s[j + 1..];
    }
  }

  /**
   * The name `col_num2text` gives column `n`: its loop runs at most once,
   * since after one round the column is at most 26.
   */
  function ColName(n: nat): (s: string)
    requires n <= MaxModelledColumn
    ensures |s| == (if n > 26 then 2 else 1)
  {
    if n > 26 then
      var q := (n - 1) / 26;
      [(64 + q) as char, (64 + (n - 26 * q)) as char]
    else
      [(64 + n) as char]
  }

  /** `col_num2text`: append the leading letter while the column exceeds 26. */
  method ColNum2Text(colNum: nat) returns (letter: string)
    requires colNum <= MaxModelledColumn
    ensures letter == ColName(colNum)
  {
    letter := [];
    var n := colNum;
    while n > 25 + 1
      invariant (letter == [] && n == colNum)
             || (colNum > 26 && letter == [(64 + (colNum - 1) / 26) as char]
                 && n == colNum - 26 * ((colNum - 1) / 26) && 1 <= n <= 26)
    {
      var q := (n - 1) / 26;
      letter := letter + [(65 + q - 1) as char];
      n := n - q * 26;
    }
    letter := letter + [(64 + n) as char];
  }

  /** Columns 1 to 26 are the single letters A to Z. */
  lemma SingleLetterColumns(n: nat)
    requires 1 <= n <= 26
    ensures ColName(n) == [(64 + n) as char] && IsUpper(ColName(n)[0])
  {
  }

  /** Columns 1 to 702 (A to ZZ) are named by upper-case letters and read back. */
  lemma {:induction false} ColumnRoundTrip(n: nat)
    requires 1 <= n <= 702
    ensures forall i :: 0 <= i < |ColName(n)| ==> IsUpper(ColName(n)[i])
    ensures ColumnValue(ColName(n)) == Some(n)
  {
    var s := ColName(n);
    if n > 26 {
      var q := (n - 1) / 26;
      assert 1 <= q <= 26;
      var r := n - 26 * q;
      assert 1 <= r <= 26;
      assert s[1..] == [(64 + r) as char];
      assert ColumnValue(s[1..]) == Some(r) by {
        assert s[1..][1..] == [];
      }
      assert LetterIndex(s[0]) == Some(q) && Place(q, 1) == 26 * q;
      assert ColumnValue(s) == Some(q * 26 + r);
    } else {
      assert s[1..] == [];
    }
  }

  /**
   * From column 703 on, the first character passes `Z`; the name does not
   * read back, except where that character happens to be `~` (index 0).
   */
  lemma ColumnBeyondZZ(n: nat)
    requires 703 <= n <= MaxModelledColumn
    ensures ColName(n)[0] > 'Z'
    ensures ColName(n)[0] != '~' ==> ColumnValue(ColName(n)).None?
  {
    var q := (n - 1) / 26;
    assert q >= 27;
    assert !IsUpper(ColName(n)[0]);
  }

  /** Column 1613 is named "~A", which `col_text2num` reads as column 1. */
  lemma TildeColumn()
    ensures ColName(1613) == "~A"
    ensures ColumnValue(ColName(1613)) == Some(1)
  {
    assert ColName(1613)[1..] == "A";
  }

  /** The fixed points listed for `col_text2num`. */
  lemma KnownColumns()
    ensures ColumnValue("A") == Some(1) && ColumnValue("B") == Some(2)
    ensures ColumnValue("Z") == Some(26) && ColumnValue("AA") == Some(27)
    ensures ColumnValue("AB") == Some(28) && ColumnValue("CD") == Some(82)
  {
    assert Place(1, 1) == 26 && Place(3, 1) == 78;
  }

  /** Index of the first ASCII digit in `s`, or `|s|` when there is none. */
  function FirstDigit(s: string): (i: nat)
    ensures i <= |s|
    ensures forall k :: 0 <= k < i ==> !IsDigit(s[k])
    ensures i < |s| ==> IsDigit(s[i])
  {
    if s == [] then 0 else if IsDigit(s[0]) then 0 else 1 + FirstDigit(s[1..])
  }

  /** End of the run of digits that starts at `i`. */
  function DigitRunEnd(s: string, i: nat): (j: nat)
    requires i <= |s|
    ensures i <= j <= |s|
    ensures forall k :: i <= k < j ==> IsDigit(s[k])
    ensures j < |s| ==> !IsDigit(s[j])
    decreases |s| - i
  {
    if i == |s| || !IsDigit(s[i]) then i else DigitRunEnd(s, i + 1)
  }

  /**
   * `Coordinates.from_text`: `re.split(r'(\d+)', text)` must give exactly
   * three parts (one run of digits); the column comes from the text before
   * the digits, the row from the digits, and the text after them is ignored.
   */
  function FromText(text: string): (r: Result<Coord>)
    ensures r.Err? ==> r.error == MalformedCoordinates
  {
    var i := FirstDigit(text);
    if i == |text| then Err(MalformedCoordinates)
    else
      var j := DigitRunEnd(text, i);
      if FirstDigit(text[j..]) < |text[j..]| then Err(MalformedCoordinates)
      else match ColumnValue(text[..i])
        case None => Err(MalformedCoordinates)
        case Some(col) => Ok(Coord(col, DigitsValue(text[i..j])))
  }

  /** `Coordinates.range_from_text`: exactly one `:`, then both ends are read. */
  function RangeFromText(text: string): (r: Result<(Coord, Coord)>)
    ensures r.Ok? <==> (|Split(text, ':')| == 2 && FromText(Split(text, ':')[0]).Ok?
                        && FromText(Split(text, ':')[1]).Ok?)
    ensures r.Ok? ==> (FromText(Split(text, ':')[0]) == Ok(r.value.0)
                       && FromText(Split(text, ':')[1]) == Ok(r.value.1))
    ensures r.Err? ==> r.error == MalformedCoordinates
  {
    var parts := Split(text, ':');
    if |parts| != 2 then Err(MalformedCoordinates)
    else match (FromText(parts[0]), FromText(parts[1]))
      case (Ok(first), Ok(last)) => Ok((first, last))
      case (Err(e), _) => Err(e)
      case (_, Err(e)) => Err(e)
  }

  /** `Coordinates.__repr__`: the column name followed by the row number. */
  function Repr(c: Coord): string
    requires c.col <= MaxModelledColumn
  {
    ColName(c.col) + NatToDecimal(c.row)
  }

  /** Reading back the text of a coordinate gives the coordinate, for columns A to ZZ. */
  lemma {:induction false} ReprRoundTrip(c: Coord)
    requires 1 <= c.col <= 702
    ensures FromText(Repr(c)) == Ok(c)
  {
    var letters := ColName(c.col);
    var digits := NatToDecimal(c.row);
    ColumnRoundTrip(c.col);
    DecimalRoundTrip(c.row);
    FromTextOfParts(letters, digits, c.col);
  }

  /** The text of a range written from two coordinates reads back as those two coordinates, for columns A to ZZ. */
  lemma RangeReprRoundTrip(a: Coord, b: Coord)
    requires 1 <= a.col <= 702 && 1 <= b.col <= 702
    ensures RangeFromText(Repr(a) + ":" + Repr(b)) == Ok((a, b))
  {
    ReprRoundTrip(a);
    ReprRoundTrip(b);
    NoColonInRepr(a);
    NoColonInRepr(b);
    var text := Repr(a) + ":" + Repr(b);
    SplitField(Repr(b), ':', []);
    assert Repr(b) + [] == Repr(b);
    assert Split(":" + Repr(b), ':') == [[]] + Split(Repr(b), ':') by {
      assert (":" + Repr(b))[1..] == Repr(b);
    }
    var tail := Split(":" + Repr(b), ':');
    assert tail[0] == [] && tail[1..] == [Repr(b)];
    SplitField(Repr(a), ':', ":" + Repr(b));
    assert text == Repr(a) + (":" + Repr(b));
    assert Repr(a) + tail[0] == Repr(a);
    assert Split(text, ':') == [Repr(a), Repr(b)];
  }

  lemma NoColonInRepr(c: Coord)
    requires 1 <= c.col <= 702
    ensures ':' !in Repr(c)
  {
    ColumnRoundTrip(c.col);
    var digits := NatToDecimal(c.row);
    assert forall i :: 0 <= i < |digits| ==> IsDigit(digits[i]);
  }

  /** Upper-case letters followed by a run of digits read as the column of the letters and the row of the digits. */
  lemma FromTextOfParts(letters: string, digits: string, col: nat)
    requires forall i :: 0 <= i < |letters| ==> IsUpper(letters[i])
    requires |digits| >= 1 && AllDigits(digits)
    requires ColumnValue(letters) == Some(col)
    ensures FromText(letters + digits) == Ok(Coord(col, DigitsValue(digits)))
  {
    var text := letters + digits;
    assert text[..|letters|] == letters;
    FirstDigitAfterLetters(letters, digits);
    DigitRunToEnd(text, |letters|);
    assert text[|text|..] == [];
    assert text[|letters|..|text|] == digits;
  }

  lemma {:induction false} FirstDigitAfterLetters(letters: string, digits: string)
    requires forall i :: 0 <= i < |letters| ==> IsUpper(letters[i])
    requires |digits| >= 1 && AllDigits(digits)
    ensures FirstDigit(letters + digits) == |letters|
  {
    if letters != [] {
      assert (letters + digits)[1..] == letters[1..] + digits;
      FirstDigitAfterLetters(letters[1..], digits);
    }
  }

  lemma {:induction false} DigitRunToEnd(s: string, i: nat)
    requires i <= |s|
    requires forall k :: i <= k < |s| ==> IsDigit(s[k])
    ensures DigitRunEnd(s, i) == |s|
    decreases |s| - i
  {
    if i < |s| {
      DigitRunToEnd(s, i + 1);
    }
  }
}
