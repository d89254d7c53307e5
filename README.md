# Spreadsheet formula engine and dependency tracking, in Dafny

This project models the core of a small Python spreadsheet in Dafny. The
model covers:

- the formula pipeline: the tokenizer, the grammar check, range expansion,
  rewriting of function calls into operators, the shunting-yard conversion
  to postfix, and the postfix evaluator;
- the dependency engine of the application manager: the reverse-edge map
  `cell_dependencies`, the breadth-first circularity check, rollback on a
  rejected edit, and the last-in first-out recomputation cascade;
- cell contents (`Numerical`, `Text`, `Formula` with its value and
  dependency caches) and the content factory;
- coordinates: base-26 column names and the `A1` text form;
- the grid: default cells, the key set of a new sheet, `size` and range
  enumeration;
- the row cleaning and splitting done when a sheet is saved to or loaded
  from the `sv2` text format.

Modules, one file each:

| module | models |
|---|---|
| `Wrappers` | `Option`, `Result` and the error kinds the source raises |
| `Strings` | digits, `strip`, `split`, `join`, character replacement |
| `Coordinates` | `Coordinates.py` |
| `Content` | `Content.py` |
| `Spreadsheet` | `spreadsheet/Spreadsheet.py` (the grid) |
| `Tokenizer` | the `Tokenizer` class |
| `Parser` | the `Parser` class |
| `Postfix` | the `PostfixExpressionManager` class |
| `FormulaEvaluator` | the `FormulaEvaluator` class |
| `DependencyGraph` | reachability, tree shape, ranks and list edits on `cell_dependencies` |
| `AppManager` | the `AppManager` class's dependency engine and `edit_cell` |
| `SpreadsheetIO` | the row logic of `SpreadsheetIO.save_sheet` and `load_sheet` |

Design choices:

- Numbers are `Int(int) | Float(real)`, following Python's int/float split.
  `+ - *` keep ints when both operands are ints, `/` always gives a float,
  and an integral result of `evaluate` is stored as an int.
- Code that changes state is imperative Dafny, proved against a function
  of the inputs and the old state:
  - `Tokenizer.tokenize`, `parse` and `_advance_until_closed_parenthesis`;
  - the shunting-yard loop and the postfix evaluator;
  - `col_text2num`, `col_num2text`, `_initialize_cell_dict` and `get_range`;
  - the list edits, the breadth-first search and the cascade of `AppManager`;
  - the save and load loops.
- `function2operator` and `transform_functions_to_operators` are generators
  that move an index cursor. They are modelled as recursive functions that
  return the emitted tokens and the next index.
- `AppManager` keeps two ghost invariants:
  - `Mirror`: `cell_dependencies` mirrors the formulas in the grid exactly;
    cell `d` lists formula `f` as many times as `f` names `d`.
  - `Ranked`: a ghost rank on cells decreases along every entry, which
    certifies that the map has no cycle.

  The circularity check is proved to reject exactly the maps whose part
  reachable from the edited cell is not a tree rooted there. A map it
  accepts therefore gets a new rank, and the cascade ends because the number
  of walks from the work list shrinks at each step.

- The edit and the cascade are stated against the formula pipeline
  itself. `AppManager` holds two ghost constants, `eval` and `tokenize`,
  fixed to `FreshEvaluation` (a fresh `FormulaEvaluator` evaluating the
  text) and `FormulaEvaluator.FormulaTokens`. A ghost log maps each
  recomputed cell to the grid it was last evaluated over, and the
  contracts say that the cell holds `eval` of its formula over that grid.
  Each such grid is a view (`Agrees`) of the grid the cascade started
  from: every cell not recomputed is there unchanged and every new cell
  holds the default content.

Quirks of the source that the model reproduces as written:

- `parse` checks only the net parenthesis count, so `1)+(1` passes
  (`Parser.NetCountOnly`). The conversion to postfix then rejects it
  (`Postfix.SwappedParenthesesRejected`).
- A `(` still open at the end of the conversion goes to the postfix output
  (`Postfix.ShuntingYardParentheses`).
- The circularity check also rejects diamonds and duplicate references,
  which are not cycles (`DependencyGraph.DiamondRejected`,
  `DependencyGraph.DuplicateEntryRejected`).
- `col_text2num` accepts `~` as digit 0, and `col_num2text` leaves `A`–`Z`
  above column 702 (`Coordinates.ColumnBeyondZZ`,
  `Coordinates.TildeColumn`).
- On load, a row that was saved as an empty line is skipped, so the rows
  after it move up by one (`SpreadsheetIO.SaveLoad`).

## Model

| member | source | states |
|---|---|---|
| Coordinates.LetterIndex | SpreadsheetMarkerForStudents/src/spreadsheet/Coordinates.py:13-16 | a character has an index iff it is `~` or `A`–`Z`, and an upper-case letter has index `ord - 64` |
| Coordinates.ColText2Num | SpreadsheetMarkerForStudents/src/spreadsheet/Coordinates.py:12-17 | the loop over the reversed text computes the sum of letter index × 26^position, and fails exactly when a character is not in the letter string |
| Coordinates.KnownColumns | SpreadsheetMarkerForStudents/src/spreadsheet/Coordinates.py:12-17 | A=1, B=2, Z=26, AA=27, AB=28 and CD=82 |
| Coordinates.ColName | SpreadsheetMarkerForStudents/src/spreadsheet/Coordinates.py:3-9 | the name has one character up to column 26 and two above it |
| Coordinates.ColNum2Text | SpreadsheetMarkerForStudents/src/spreadsheet/Coordinates.py:3-9 | the loop that peels off the leading letter computes `ColName` |
| Coordinates.SingleLetterColumns | SpreadsheetMarkerForStudents/src/spreadsheet/Coordinates.py:8 | columns 1..26 are the single letter `chr(64+n)` |
| Coordinates.ColumnRoundTrip | SpreadsheetMarkerForStudents/src/spreadsheet/Coordinates.py:3-17 | for columns 1..702 the name is upper-case letters and reads back as the same number |
| Coordinates.ColumnBeyondZZ | SpreadsheetMarkerForStudents/src/spreadsheet/Coordinates.py:5-6 | above 702 the first character passes `Z`, and the name no longer reads back (unless it is `~`) |
| Coordinates.TildeColumn | SpreadsheetMarkerForStudents/src/spreadsheet/Coordinates.py:13 | column 1613 is named `~A`, which reads back as column 1 |
| Coordinates.FirstDigit | SpreadsheetMarkerForStudents/src/spreadsheet/Coordinates.py:49 | the split point is the first digit, and nothing before it is a digit |
| Coordinates.DigitRunEnd | SpreadsheetMarkerForStudents/src/spreadsheet/Coordinates.py:49 | the digit run ends at the first non-digit |
| Coordinates.FromText | SpreadsheetMarkerForStudents/src/spreadsheet/Coordinates.py:35-51 | text that cannot be split or read fails with a malformed-coordinates error |
| Coordinates.ReprRoundTrip | SpreadsheetMarkerForStudents/src/spreadsheet/Coordinates.py:35-62 | `from_text(repr(c)) == c` for every coordinate with column 1..702 |
| Coordinates.RangeFromText | SpreadsheetMarkerForStudents/src/spreadsheet/Coordinates.py:54-58 | a range is read exactly when it splits on `:` into two parts that `from_text` both reads; it then returns those two coordinates, and otherwise fails with `MalformedCoordinates` |
| Coordinates.RangeReprRoundTrip | SpreadsheetMarkerForStudents/src/spreadsheet/Coordinates.py:54-62 | the text `repr(a) + ":" + repr(b)` reads back as the pair (a, b) for columns 1..702 |
| Content.Content.GetValue | SpreadsheetMarkerForStudents/src/spreadsheet/Content.py:26-74 | numbers and text return their value; a formula fails iff its value is unset, and otherwise returns it |
| Content.NewFormula | SpreadsheetMarkerForStudents/src/spreadsheet/Content.py:64-69 | a new formula has neither a value nor dependencies |
| Content.FormulaDumpRoundTrip | SpreadsheetMarkerForStudents/src/spreadsheet/Content.py:64-77 | for a text starting with `=`, stripping the `=` and dumping `"=" + representation` gives the text back |
| Content.DumpIsValue | SpreadsheetMarkerForStudents/src/spreadsheet/Content.py:31-53 | for numbers and text, the dumped value is the value |
| Content.GetAfterSet | SpreadsheetMarkerForStudents/src/spreadsheet/Content.py:37-80 | after `set_value(v)`, `get_value` returns v, and a formula stays a formula |
| Content.NewFormulaUnevaluated | SpreadsheetMarkerForStudents/src/spreadsheet/Content.py:68-74 | reading a formula before it is evaluated fails |
| Content.DependenciesAfterSet | SpreadsheetMarkerForStudents/src/spreadsheet/Content.py:85-89 | `get_dependencies` returns exactly what was set, and the value and text are unchanged |
| Content.Get | SpreadsheetMarkerForStudents/src/spreadsheet/Content.py:96-109 | the factory order: a number; then an all-digit string as an int; then a float-parsable string; then a leading `=` gives a formula; anything else is text |
| Spreadsheet.NewCell | spreadsheet/Spreadsheet.py:10-16 | a cell created without content holds `Numerical(0)` |
| Spreadsheet.ColumnKeysSize | spreadsheet/Spreadsheet.py:51-53 | one column of the new sheet holds `num_rows` keys |
| Spreadsheet.GridAddColumn | spreadsheet/Spreadsheet.py:50-53 | the key set grows column by column, and each new column is disjoint from the earlier ones |
| Spreadsheet.GridKeysSize | spreadsheet/Spreadsheet.py:49-54 | a new sheet has `num_columns * num_rows` keys |
| Spreadsheet.TenByTen | spreadsheet/Spreadsheet.py:49-54 | a 10×10 sheet has 100 cells |
| Spreadsheet.Spreadsheet.InitializeCellDict | spreadsheet/Spreadsheet.py:32-54 | the nested loops create exactly the keys (c, r) with 1≤c≤num_columns and 1≤r≤num_rows, each a default cell |
| Spreadsheet.Spreadsheet.constructor | spreadsheet/Spreadsheet.py:26-30 | the name and bounds are stored, and every cell holds the default content |
| Spreadsheet.Spreadsheet.Size | spreadsheet/Spreadsheet.py:56-57 | on a valid sheet, the keys are exactly the rectangle spanned by the returned (columns, rows), and the cell count is their product |
| Spreadsheet.ColumnRun | spreadsheet/Spreadsheet.py:63-64 | the inner loop yields r2−r1+1 rows, or none when r1 > r2 |
| Spreadsheet.RangeCoordsAt | spreadsheet/Spreadsheet.py:59-65 | a range has (c2−c1+1)·(r2−r1+1) cells; cell (c1+ci, r1+ri) is at position ci·height + ri, with columns outer and rows inner |
| Spreadsheet.RangeCoordsMembers | spreadsheet/Spreadsheet.py:59-65 | a coordinate is enumerated iff it lies inside the rectangle |
| Spreadsheet.RangeExamples | spreadsheet/Spreadsheet.py:59-65 | A3..A5 gives three cells in row order, (1,3)..(3,5) gives nine, and (1,1)..(3,3) starts at (1,1) |
| Spreadsheet.RangeStartsAtCorner | spreadsheet/Spreadsheet.py:62-64 | a non-empty range starts with the first corner |
| Spreadsheet.EmptyRange | spreadsheet/Spreadsheet.py:62-63 | the range is empty when c1 > c2 or r1 > r2 |
| Spreadsheet.Spreadsheet.GetRange | spreadsheet/Spreadsheet.py:59-65 | succeeds iff every enumerated key is present; then returns those cells in enumeration order, and otherwise fails with a missing key |
| Spreadsheet.Spreadsheet.SetContent | SpreadsheetMarkerForStudents/src/spreadsheet/AppManager.py:178 | only the one cell is replaced, and the grid stays a full rectangle |
| Spreadsheet.Spreadsheet.Expand | SpreadsheetMarkerForStudents/src/spreadsheet/AppManager.py:170-171 | the bounds grow to include the cell, existing cells are kept, new cells are default, and the cell is then present when its column and row are both at least 1 |
| Tokenizer.PatternOrder | SpreadsheetMarkerForStudents/src/spreadsheet/FormulaEvaluator.py:26-35 | the token classes are tried in the order of their ids 0..7 |
| Tokenizer.Match | SpreadsheetMarkerForStudents/src/spreadsheet/FormulaEvaluator.py:26-35 | a pattern matches a non-empty prefix |
| Tokenizer.FirstMatchIsFirst | SpreadsheetMarkerForStudents/src/spreadsheet/FormulaEvaluator.py:53-60 | the class chosen matches and no earlier class does; there is no match iff no class matches |
| Tokenizer.ScanRebuilds | SpreadsheetMarkerForStudents/src/spreadsheet/FormulaEvaluator.py:51-60 | for any choice of classes that cuts a non-empty prefix, the token texts followed by the unread rest give back the input |
| Tokenizer.LexStopsWhenStuck | SpreadsheetMarkerForStudents/src/spreadsheet/FormulaEvaluator.py:61-62 | scanning stops only where no class matches |
| Tokenizer.LexPicksFirstMatch | SpreadsheetMarkerForStudents/src/spreadsheet/FormulaEvaluator.py:53-59 | each token is the first class's match on the text left at that point |
| Tokenizer.LexStep | SpreadsheetMarkerForStudents/src/spreadsheet/FormulaEvaluator.py:57-59 | one token is taken and the scan goes on after it |
| Tokenizer.LexConcat | SpreadsheetMarkerForStudents/src/spreadsheet/FormulaEvaluator.py:51-63 | when everything was read, the token texts concatenate to the input |
| Tokenizer.TokenizeExample | SpreadsheetMarkerForStudents/src/spreadsheet/FormulaEvaluator.py:48-63 | `MAX(A3:B3)+4*C5` gives MAX, (, A3:B3, ), +, 4, *, C5 with their classes |
| Tokenizer.Tokenizer.MatchFirstPattern | SpreadsheetMarkerForStudents/src/spreadsheet/FormulaEvaluator.py:53-60 | the loop over the patterns returns the first match |
| Tokenizer.Tokenizer.Tokenize | SpreadsheetMarkerForStudents/src/spreadsheet/FormulaEvaluator.py:48-63 | spaces are removed; the tokens are appended to the instance's list; it succeeds iff the whole text is read, and otherwise fails with a malformed formula |
| Parser.Parse | SpreadsheetMarkerForStudents/src/spreadsheet/FormulaEvaluator.py:81-126 | returns the tokens unchanged iff every adjacent pair, the first and last token, and the net parenthesis count are allowed; otherwise fails (an index error on the empty list) |
| Parser.NetCountOnly | SpreadsheetMarkerForStudents/src/spreadsheet/FormulaEvaluator.py:116-124 | `1)+(1` passes although its running count goes negative |
| Parser.ExampleWellFormed | SpreadsheetMarkerForStudents/src/spreadsheet/FormulaEvaluator.py:103-126 | the tokens of `MAX(A3:B3)+4*C5` pass the grammar check |
| Parser.ExampleRejected | SpreadsheetMarkerForStudents/src/spreadsheet/FormulaEvaluator.py:106-108 | `MAX)A3:B3)+4*C5` breaks an adjacency rule |
| Parser.CellTokens | SpreadsheetMarkerForStudents/src/spreadsheet/FormulaEvaluator.py:140 | each coordinate becomes a cell token holding its text form, in order |
| Parser.ResolveOne | SpreadsheetMarkerForStudents/src/spreadsheet/FormulaEvaluator.py:133-140 | a non-range token is kept as it is, and nothing produced is a range |
| Parser.ResolveRanges | SpreadsheetMarkerForStudents/src/spreadsheet/FormulaEvaluator.py:129-140 | the output holds no range token |
| Parser.ResolveRangesIdentity | SpreadsheetMarkerForStudents/src/spreadsheet/FormulaEvaluator.py:133-135 | tokens without ranges come back unchanged |
| Parser.ResolveRangesIdempotent | SpreadsheetMarkerForStudents/src/spreadsheet/FormulaEvaluator.py:129-140 | resolving twice changes nothing more |
| Parser.RangeTokensReadBack | SpreadsheetMarkerForStudents/src/spreadsheet/FormulaEvaluator.py:138-140 | the i-th cell token of an expanded range reads back as the i-th coordinate of `get_range`, and that cell is in the grid |
| Parser.ResolveRangesFails | SpreadsheetMarkerForStudents/src/spreadsheet/FormulaEvaluator.py:136-140 | resolution fails iff some range token cannot be read or names a cell outside the grid |
| Parser.CloseIndexIsMatching | SpreadsheetMarkerForStudents/src/spreadsheet/FormulaEvaluator.py:146-154 | the index found is one past the `)` that first brings the depth to zero, and the depth stays positive before it |
| Parser.BalanceAppend | SpreadsheetMarkerForStudents/src/spreadsheet/FormulaEvaluator.py:117-122 | the parenthesis count of a concatenation is the sum of the counts |
| Parser.AdvanceUntilClosedParenthesis | SpreadsheetMarkerForStudents/src/spreadsheet/FormulaEvaluator.py:143-154 | the counter loop returns the matching index, and runs off the end (an index error) iff there is no matching `)` |
| Parser.FunctionOperator | SpreadsheetMarkerForStudents/src/spreadsheet/FormulaEvaluator.py:96-101 | the four functions map to `+`, `m`, `M` and `+`; any other name is unknown |
| Parser.Advance | SpreadsheetMarkerForStudents/src/spreadsheet/FormulaEvaluator.py:177-180 | the cursor moves past a `)` |
| Parser.OperatorAfter | SpreadsheetMarkerForStudents/src/spreadsheet/FormulaEvaluator.py:189-190 | the operator is emitted unless the next token is `)`; reading past the end fails |
| Parser.ArgumentsExpanded | SpreadsheetMarkerForStudents/src/spreadsheet/FormulaEvaluator.py:172-190 | the expanded arguments hold no function token and have a net parenthesis count of zero |
| Parser.FunctionToOperatorExpanded | SpreadsheetMarkerForStudents/src/spreadsheet/FormulaEvaluator.py:157-197 | a rewritten call is parenthesised, holds no function token and is balanced |
| Parser.TransformRemovesFunctions | SpreadsheetMarkerForStudents/src/spreadsheet/FormulaEvaluator.py:200-224 | the rewritten tokens hold no function token |
| Parser.TransformIdentity | SpreadsheetMarkerForStudents/src/spreadsheet/FormulaEvaluator.py:214-217 | tokens without functions are kept as they are |
| Parser.ArgumentListLength | SpreadsheetMarkerForStudents/src/spreadsheet/FormulaEvaluator.py:172-190 | n operands separated by `;` take 2n−1 tokens |
| Parser.FlatArguments | SpreadsheetMarkerForStudents/src/spreadsheet/FormulaEvaluator.py:172-190 | flat operands separated by `;` become the operands joined by the operator: each `;` is dropped, and no operator comes before `)` |
| Parser.FlatCall | SpreadsheetMarkerForStudents/src/spreadsheet/FormulaEvaluator.py:157-197 | `F(x1;…;xn)` becomes `(x1 op … op xn)`, and `PROMEDIO` becomes `((x1+…+xn)/n)` |
| Parser.AverageExample | SpreadsheetMarkerForStudents/src/spreadsheet/FormulaEvaluator.py:200-224 | `PROMEDIO(1;2)` becomes `((1+2)/2)` |
| Postfix.Power | SpreadsheetMarkerForStudents/src/spreadsheet/FormulaEvaluator.py:368-369 | `a ^ b` for an integral exponent: the power (the reciprocal for a negative exponent); an int iff both are ints and the exponent is not negative; zero to a negative power divides by zero |
| Postfix.EvaluateOperation | SpreadsheetMarkerForStudents/src/spreadsheet/FormulaEvaluator.py:358-375 | `+ - *` are exact and keep ints; `/` is a float and fails on zero; `m`/`M` are min and max, returning the first argument on a tie; any other operator is an error |
| Postfix.Sum | SpreadsheetMarkerForStudents/src/spreadsheet/FormulaEvaluator.py:360-361 | `a + b` is the exact sum, an int iff both operands are ints |
| Postfix.Difference | SpreadsheetMarkerForStudents/src/spreadsheet/FormulaEvaluator.py:362-363 | `a - b` is the exact difference, an int iff both operands are ints |
| Postfix.Product | SpreadsheetMarkerForStudents/src/spreadsheet/FormulaEvaluator.py:364-365 | `a * b` is the exact product, an int iff both operands are ints |
| Postfix.Quotient | SpreadsheetMarkerForStudents/src/spreadsheet/FormulaEvaluator.py:366-367 | `a / b` on a non-zero divisor is a float that multiplied by `b` gives `a` |
| Postfix.Smaller | SpreadsheetMarkerForStudents/src/spreadsheet/FormulaEvaluator.py:370-371 | `min(a, b)` is one of the two, no larger than either, and the first on a tie |
| Postfix.Larger | SpreadsheetMarkerForStudents/src/spreadsheet/FormulaEvaluator.py:372-373 | `max(a, b)` is one of the two, no smaller than either, and the first on a tie |
| Postfix.EvalItemsAppend | SpreadsheetMarkerForStudents/src/spreadsheet/FormulaEvaluator.py:377-393 | evaluating a concatenation is evaluating the two parts in turn |
| Postfix.BinaryPostfix | SpreadsheetMarkerForStudents/src/spreadsheet/FormulaEvaluator.py:384-389 | an operator pops b, then a, and pushes `a op b` |
| Postfix.EvaluatePostfixExpression | SpreadsheetMarkerForStudents/src/spreadsheet/FormulaEvaluator.py:377-393 | the operand-stack loop computes `EvalPostfix`: it fails with fewer than two operands, with a final stack not of size 1, or with an unknown operator |
| Postfix.Precedence | SpreadsheetMarkerForStudents/src/spreadsheet/FormulaEvaluator.py:296-304 | exactly the seven operators have a precedence, from 1 to 3 |
| Postfix.LiteralValue | SpreadsheetMarkerForStudents/src/spreadsheet/FormulaEvaluator.py:308-309 | a digit literal becomes the float of its decimal value |
| Postfix.CellItem | SpreadsheetMarkerForStudents/src/spreadsheet/FormulaEvaluator.py:312-317 | a cell outside the grid reads as the default 0 |
| Postfix.PopOperatorsShape | SpreadsheetMarkerForStudents/src/spreadsheet/FormulaEvaluator.py:320-326 | an incoming operator pops a top part of the stack of operators with precedence ≥ its own, top first, so equal precedences associate to the left; it fails only on an unknown incoming operator |
| Postfix.CloseParenthesis | SpreadsheetMarkerForStudents/src/spreadsheet/FormulaEvaluator.py:342-348 | a `)` without a `(` on the stack fails |
| Postfix.Flush | SpreadsheetMarkerForStudents/src/spreadsheet/FormulaEvaluator.py:351-354 | the stack left at the end goes to the output top first |
| Postfix.ShuntPrefixErr | SpreadsheetMarkerForStudents/src/spreadsheet/FormulaEvaluator.py:306-349 | the first failing token decides the error |
| Postfix.ReadCell | SpreadsheetMarkerForStudents/src/spreadsheet/FormulaEvaluator.py:312-317 | a missing cell is added with `expand` before it is read; the item read is the one the grid gave before the conversion |
| Postfix.CellReaderNoOpen | SpreadsheetMarkerForStudents/src/spreadsheet/FormulaEvaluator.py:312-317 | when no cell holds the text `(`, no cell token is read as the item `(` |
| Postfix.PopBefore | SpreadsheetMarkerForStudents/src/spreadsheet/FormulaEvaluator.py:320-326 | the popping loop computes `PopOperators` |
| Postfix.PopUntilOpen | SpreadsheetMarkerForStudents/src/spreadsheet/FormulaEvaluator.py:342-348 | the loop at `)` computes `CloseParenthesis` |
| Postfix.FlushStack | SpreadsheetMarkerForStudents/src/spreadsheet/FormulaEvaluator.py:351-354 | the final loop appends the stack top first |
| Postfix.ConvertToken | SpreadsheetMarkerForStudents/src/spreadsheet/FormulaEvaluator.py:306-348 | one pass of the loop body moves the stack and output on exactly as the conversion step does, reading cells against the grid before the call; the grid only grows, with default cells |
| Postfix.GeneratePostfixExpression | SpreadsheetMarkerForStudents/src/spreadsheet/FormulaEvaluator.py:279-356 | the loop computes the shunting-yard conversion against the grid before the call; the grid only grows, with default cells |
| Postfix.ShuntingYardParentheses | SpreadsheetMarkerForStudents/src/spreadsheet/FormulaEvaluator.py:342-354 | a conversion that succeeds never closed an unopened parenthesis; its output has one item per literal, cell and operator plus one per parenthesis still open, and when no cell reads as `(` those are exactly its `(` items |
| Postfix.SwappedParenthesesRejected | SpreadsheetMarkerForStudents/src/spreadsheet/FormulaEvaluator.py:116-348 | `1)+(1` passes the grammar check but fails the conversion |
| Postfix.OperatorOrder | SpreadsheetMarkerForStudents/src/spreadsheet/FormulaEvaluator.py:320-326 | in `x lo y hi z`, a tighter `hi` is applied first; otherwise the operators apply left to right |
| Postfix.PrecedenceExample | SpreadsheetMarkerForStudents/src/spreadsheet/FormulaEvaluator.py:279-393 | `1+2*3` converts to `1 2 3 * +`, which evaluates to 7 |
| FormulaEvaluator.Lexed | SpreadsheetMarkerForStudents/src/spreadsheet/FormulaEvaluator.py:407-409 | the tokens of a fresh tokenizer concatenate to the text without spaces |
| FormulaEvaluator.Checked | SpreadsheetMarkerForStudents/src/spreadsheet/FormulaEvaluator.py:412-413 | the grammar stage succeeds iff the tokens are well formed, and then returns them |
| FormulaEvaluator.TokensAfterGet | SpreadsheetMarkerForStudents/src/spreadsheet/FormulaEvaluator.py:413-417 | after a successful `get_tokens`, the attribute holds the expanded tokens |
| FormulaEvaluator.FormulaTokensExpanded | SpreadsheetMarkerForStudents/src/spreadsheet/FormulaEvaluator.py:404-417 | the tokens a formula is evaluated from hold no function and no range |
| FormulaEvaluator.MalformedTextRejected | SpreadsheetMarkerForStudents/src/spreadsheet/FormulaEvaluator.py:409 | a text the tokenizer cannot read fails before any other stage |
| FormulaEvaluator.IllFormedRejected | SpreadsheetMarkerForStudents/src/spreadsheet/FormulaEvaluator.py:413 | ill-formed tokens fail before ranges are looked up |
| FormulaEvaluator.Normalize | SpreadsheetMarkerForStudents/src/spreadsheet/FormulaEvaluator.py:430-431 | the value is kept, and it becomes an int iff it is integral |
| FormulaEvaluator.NormalizeIdempotent | SpreadsheetMarkerForStudents/src/spreadsheet/FormulaEvaluator.py:430-431 | normalising twice changes nothing more |
| FormulaEvaluator.EvaluateTokens | SpreadsheetMarkerForStudents/src/spreadsheet/FormulaEvaluator.py:425-431 | a stored value is an int iff it is integral |
| FormulaEvaluator.IntegralResultStoredAsInt | SpreadsheetMarkerForStudents/src/spreadsheet/FormulaEvaluator.py:425-433 | `1+2*3` is stored as the int 7 |
| FormulaEvaluator.ReadCoordinates | SpreadsheetMarkerForStudents/src/spreadsheet/FormulaEvaluator.py:440 | succeeds iff every cell text reads as a coordinate, and then returns them in order |
| FormulaEvaluator.CellTextsOfCells | SpreadsheetMarkerForStudents/src/spreadsheet/FormulaEvaluator.py:439 | each cell token contributes its text, in order |
| FormulaEvaluator.RangeDependencies | SpreadsheetMarkerForStudents/src/spreadsheet/FormulaEvaluator.py:435-440 | a formula of one range depends on exactly the range's cells, in `get_range` order |
| FormulaEvaluator.FormulaEvaluator.constructor | SpreadsheetMarkerForStudents/src/spreadsheet/FormulaEvaluator.py:399-402 | the formula and sheet are stored, and there are no tokens yet |
| FormulaEvaluator.FormulaEvaluator.TokenizeFresh | SpreadsheetMarkerForStudents/src/spreadsheet/FormulaEvaluator.py:407-409 | a fresh tokenizer's list is the tokenizer stage's result |
| FormulaEvaluator.FormulaEvaluator.GetTokens | SpreadsheetMarkerForStudents/src/spreadsheet/FormulaEvaluator.py:404-417 | returns the tokenized, checked, range-resolved and rewritten tokens, storing each stage in the attribute |
| FormulaEvaluator.FormulaEvaluator.Evaluate | SpreadsheetMarkerForStudents/src/spreadsheet/FormulaEvaluator.py:419-433 | cached tokens are used when there are any; the normalised value is stored in the formula; on failure the formula is unchanged; the grid only grows |
| FormulaEvaluator.FormulaEvaluator.UpdateDependencies | SpreadsheetMarkerForStudents/src/spreadsheet/FormulaEvaluator.py:435-440 | records the coordinates of the cell tokens, in order and with repetitions |
| DependencyGraph.ReachesStep | SpreadsheetMarkerForStudents/src/spreadsheet/AppManager.py:203-207 | following an entry extends a walk |
| DependencyGraph.ReachesFirst | SpreadsheetMarkerForStudents/src/spreadsheet/AppManager.py:191 | a walk of more than one cell leaves through one of the first cell's entries |
| DependencyGraph.DependentStep | SpreadsheetMarkerForStudents/src/spreadsheet/AppManager.py:191 | a cell one entry past a dependent is a dependent |
| DependencyGraph.ClosedContainsReachable | SpreadsheetMarkerForStudents/src/spreadsheet/AppManager.py:200-208 | a set that contains the start and is closed under entries contains every reachable cell |
| DependencyGraph.CycleThroughStartRejected | SpreadsheetMarkerForStudents/src/spreadsheet/AppManager.py:195-210 | a cell that depends on itself is reported |
| DependencyGraph.ReachableCycleRejected | SpreadsheetMarkerForStudents/src/spreadsheet/AppManager.py:195-210 | every cycle through a reachable cell is reported |
| DependencyGraph.DiamondRejected | SpreadsheetMarkerForStudents/src/spreadsheet/AppManager.py:204-205 | a diamond is reported although it has no cycle |
| DependencyGraph.DuplicateEntryRejected | SpreadsheetMarkerForStudents/src/spreadsheet/AppManager.py:204-205 | a formula that reads one cell twice is reported |
| DependencyGraph.RankAlongWalk | SpreadsheetMarkerForStudents/src/spreadsheet/AppManager.py:183-191 | ranks decrease strictly along any walk |
| DependencyGraph.RankedHasNoCycle | SpreadsheetMarkerForStudents/src/spreadsheet/AppManager.py:183-191 | a ranked map has no cell that depends on itself |
| DependencyGraph.RewiredStaysRanked | SpreadsheetMarkerForStudents/src/spreadsheet/AppManager.py:146-154 | rewiring one cell's entries, when the check accepts, keeps the map acyclic |
| DependencyGraph.PopAndExtend | SpreadsheetMarkerForStudents/src/spreadsheet/AppManager.py:183-191 | popping a cell and pushing its entries lowers the number of walks: the cascade ends |
| DependencyGraph.RemoveFirst | SpreadsheetMarkerForStudents/src/spreadsheet/AppManager.py:139 | `list.remove` takes away one occurrence |
| DependencyGraph.UnlinkCounts | SpreadsheetMarkerForStudents/src/spreadsheet/AppManager.py:137-139 | removing an old formula's entries takes away one entry per listed dependency and nothing else |
| DependencyGraph.NextEntryPresent | SpreadsheetMarkerForStudents/src/spreadsheet/AppManager.py:139 | no `remove` fails |
| DependencyGraph.LinkCounts | SpreadsheetMarkerForStudents/src/spreadsheet/AppManager.py:146-149 | linking adds exactly one entry per dependency |
| DependencyGraph.UnlinkSubgraph | SpreadsheetMarkerForStudents/src/spreadsheet/AppManager.py:137-139 | unlinking only removes entries |
| DependencyGraph.LinkOnlyAddsX | SpreadsheetMarkerForStudents/src/spreadsheet/AppManager.py:146-149 | linking only adds entries naming the edited cell |
| AppManager.ListedIsFormula | SpreadsheetMarkerForStudents/src/spreadsheet/AppManager.py:188 | a cell listed in the map holds a formula |
| AppManager.RewiredMirror | SpreadsheetMarkerForStudents/src/spreadsheet/AppManager.py:136-149 | the rewired map mirrors the grid after the store |
| AppManager.CommitOther | SpreadsheetMarkerForStudents/src/spreadsheet/AppManager.py:141-143 | storing non-formula content after the removal keeps the map a mirror and acyclic |
| AppManager.CommitFormula | SpreadsheetMarkerForStudents/src/spreadsheet/AppManager.py:145-154 | an accepted formula keeps the map a mirror and acyclic |
| AppManager.GrownSameDependencies | SpreadsheetMarkerForStudents/src/spreadsheet/AppManager.py:170-175 | growing the grid with default cells changes no recorded dependency |
| AppManager.CascadeStart | SpreadsheetMarkerForStudents/src/spreadsheet/AppManager.py:181-182 | the initial work list holds the direct dependents |
| AppManager.CascadeStep | SpreadsheetMarkerForStudents/src/spreadsheet/AppManager.py:183-191 | each pop-and-extend keeps every dependent either done or reachable from the work list |
| AppManager.CascadeGridSameDependencies | SpreadsheetMarkerForStudents/src/spreadsheet/AppManager.py:183-191 | recomputation changes no recorded dependency |
| AppManager.DependentIsFormula | SpreadsheetMarkerForStudents/src/spreadsheet/AppManager.py:188-190 | every cell the cascade evaluates holds a formula |
| AppManager.PendingNotExpanded | SpreadsheetMarkerForStudents/src/spreadsheet/AppManager.py:202 | a pending cell has not been expanded yet |
| AppManager.ExpandedCell | SpreadsheetMarkerForStudents/src/spreadsheet/AppManager.py:202-207 | a cell whose entries were all followed counts as expanded |
| AppManager.EntryRevisits | SpreadsheetMarkerForStudents/src/spreadsheet/AppManager.py:204-205 | an entry that leads to a cell already seen shows the map is not a tree |
| AppManager.EntryQueued | SpreadsheetMarkerForStudents/src/spreadsheet/AppManager.py:206-207 | an entry that leads to an unseen cell queues that cell |
| AppManager.LevelDone | SpreadsheetMarkerForStudents/src/spreadsheet/AppManager.py:208 | a finished level hands on its queue, and the set of seen cells grew |
| AppManager.SearchDone | SpreadsheetMarkerForStudents/src/spreadsheet/AppManager.py:200-210 | a search that runs out of cells saw each reachable cell exactly once: the map is a tree |
| AppManager.RemoveDependent | SpreadsheetMarkerForStudents/src/spreadsheet/AppManager.py:137-139 | the removal loop unlinks one entry per old dependency |
| AppManager.AddDependent | SpreadsheetMarkerForStudents/src/spreadsheet/AppManager.py:146-149 | the append loop creates missing lists and links one entry per dependency |
| AppManager.FollowEntries | SpreadsheetMarkerForStudents/src/spreadsheet/AppManager.py:203-207 | the inner loop either reports a revisit, which proves the map is not a tree, or queues every entry |
| AppManager.ExpandLevel | SpreadsheetMarkerForStudents/src/spreadsheet/AppManager.py:202-208 | the middle loop expands every cell of the level unless it reports |
| AppManager.Search | SpreadsheetMarkerForStudents/src/spreadsheet/AppManager.py:197-210 | the search reports iff the part of the map reachable from the start is not a tree rooted there |
| AppManager.AppManager.constructor | SpreadsheetMarkerForStudents/src/spreadsheet/AppManager.py:78-82 | a one-cell sheet and an empty map |
| AppManager.AppManager.CheckCircularDependencies | SpreadsheetMarkerForStudents/src/spreadsheet/AppManager.py:195-210 | returns True iff the map is not a tree from the cell |
| AppManager.AppManager.Revaluate | SpreadsheetMarkerForStudents/src/spreadsheet/AppManager.py:188-190 | the formula is evaluated over the current grid: the call succeeds iff that evaluation does, and then the cell holds the formula with that value, its text and dependencies kept; a failure returns that evaluation's error; the grid only grows, with default cells |
| AppManager.AppManager.RecomputeDependents | SpreadsheetMarkerForStudents/src/spreadsheet/AppManager.py:181-191 | the cascade terminates and recomputes only dependents; each recomputed cell holds its formula evaluated over the grid of its last turn, which shows every cell not recomputed as it was when the cascade started and every new cell as default; with no failure every dependent is recomputed; a failure returns the evaluation error of a recomputed dependent over such a grid; every other cell and the map are kept |
| AppManager.AppManager.UpdateDependencies | SpreadsheetMarkerForStudents/src/spreadsheet/AppManager.py:130-154 | the old entries are removed and the new ones added; the edit is accepted iff the rewired map is a tree from the cell; on rejection the snapshot is restored and a circular-dependency error raised |
| AppManager.AppManager.PrepareFormula | SpreadsheetMarkerForStudents/src/spreadsheet/AppManager.py:172-175 | the result is `Prepared`: the formula with its evaluation over the current grid as value and the coordinates of its cell tokens as dependencies; the first failing stage decides the error |
| AppManager.AppManager.EditCell | SpreadsheetMarkerForStudents/src/spreadsheet/AppManager.py:157-191 | bad coordinates fail with nothing changed; otherwise `EditOutcome` holds: a failed preparation, a row or column 0 (`KeyNotFound`) and a circular rewiring each fail with the map unchanged and the grid only grown; an accepted edit rewires the map, stores the prepared content and recomputes dependents, each over a grid that shows the stored cell and every cell not recomputed as they are after the store; on success every dependent, on failure the error is a dependent's evaluation error over such a grid; no other cell changes and new cells are default |
| AppManager.AppManager.Commit | SpreadsheetMarkerForStudents/src/spreadsheet/AppManager.py:176-191 | `CommitOutcome`: a cell missing from the grid fails with `KeyNotFound`, a rewiring that leaves the map not a tree fails with `CircularDependency`, both with grid and map untouched; otherwise the map is rewired, the content stored, cells outside the recomputed ones untouched and new cells default; each recomputed cell is a dependent holding its formula revalued over a grid that shows every cell not recomputed as it is after the store; all dependents on success, and on failure a dependent's evaluation error over such a grid |
| AppManager.AppManager.EditAt | SpreadsheetMarkerForStudents/src/spreadsheet/AppManager.py:169-191 | `edit_cell` after the coordinates are read: the same `EditOutcome`, frame included; the grid never loses a cell |
| AppManager.AppManager.RecomputeCell | SpreadsheetMarkerForStudents/src/spreadsheet/AppManager.py:184-190 | one turn of the cascade: a success logs the cell with the grid it was evaluated over, itself a view of the starting grid outside the logged cells; a failure returns that evaluation's error over such a view and logs nothing |
| AppManager.Prepared | SpreadsheetMarkerForStudents/src/spreadsheet/AppManager.py:172-175 | a prepared formula is a formula whose dependencies are recorded |
| AppManager.EditFailedEarly | SpreadsheetMarkerForStudents/src/spreadsheet/AppManager.py:172-175 | a failed preparation ends the edit with its error and the map untouched |
| AppManager.EditFromCommit | SpreadsheetMarkerForStudents/src/spreadsheet/AppManager.py:170-191 | the store's outcome over the grid the evaluation left is the edit's outcome over the grid it evaluated |
| AppManager.CommittedOnGrown | SpreadsheetMarkerForStudents/src/spreadsheet/AppManager.py:170-191 | recomputed cells, the frame, the logged grids and the failure, stated over a grown grid, hold over the grid before the growth |
| AppManager.CascadeBeforeStore | SpreadsheetMarkerForStudents/src/spreadsheet/AppManager.py:178-191 | cells recomputed after the store are dependents other than the edited cell, so their refresh and failure read against the grid before the store |
| AppManager.FailedBeforeGrowth | SpreadsheetMarkerForStudents/src/spreadsheet/AppManager.py:170-191 | a failing dependent of a grown grid was a formula before the growth, and the grid it failed over is a view of the grid before the growth |
| AppManager.CascadeGridRevalued | SpreadsheetMarkerForStudents/src/spreadsheet/AppManager.py:188-190 | evaluating one more cell logs it with the grid it was evaluated over, which shows every cell not yet recomputed as it started; every other logged refresh and view is kept |
| AppManager.AgreesOnGrown | SpreadsheetMarkerForStudents/src/spreadsheet/AppManager.py:170-171 | a view of the grid grown by `expand` is a view of the grid before, since nothing was written in the added cells |
| AppManager.ViewsAgreeLogged | SpreadsheetMarkerForStudents/src/spreadsheet/AppManager.py:187-190 | logging the grid of one more evaluation keeps every logged grid a view of the starting grid |
| AppManager.CascadeDone | SpreadsheetMarkerForStudents/src/spreadsheet/AppManager.py:183 | an empty work list means every dependent was recomputed |
| AppManager.GrownFormula | SpreadsheetMarkerForStudents/src/spreadsheet/AppManager.py:170-171 | the cells `expand` adds hold no formula |
| AppManager.RewiredOnGrown | SpreadsheetMarkerForStudents/src/spreadsheet/AppManager.py:146-154 | default cells added by `expand` do not change the rewired map |
| FormulaEvaluator.NoTokensNoValue | SpreadsheetMarkerForStudents/src/spreadsheet/FormulaEvaluator.py:391-392 | a formula with no tokens has no value: the final stack is empty |
| FormulaEvaluator.Evaluation | SpreadsheetMarkerForStudents/src/spreadsheet/FormulaEvaluator.py:419-433 | a formula evaluates only when its tokens could be produced |
| FormulaEvaluator.CellTexts | SpreadsheetMarkerForStudents/src/spreadsheet/FormulaEvaluator.py:439 | the cell texts are at most as many as the tokens |
| Parser.ExpandRange | SpreadsheetMarkerForStudents/src/spreadsheet/FormulaEvaluator.py:136-140 | an expanded range yields only cell tokens |
| Parser.CloseIndex | SpreadsheetMarkerForStudents/src/spreadsheet/FormulaEvaluator.py:146-154 | an index found is past the start, within the tokens, and one past a `)` |
| Tokenizer.FirstMatch | SpreadsheetMarkerForStudents/src/spreadsheet/FormulaEvaluator.py:53-60 | a match found is a non-empty prefix of the text |
| SpreadsheetIO.SplitLines | SpreadsheetMarkerForStudents/src/spreadsheet/AppManager.py:64-67 | the rows are at most as many as the lines |
| SpreadsheetIO.CleanField | SpreadsheetMarkerForStudents/src/spreadsheet/AppManager.py:39 | a cleaned field holds no `;`, and is empty iff the field was empty or `"0"` |
| SpreadsheetIO.RestoreField | SpreadsheetMarkerForStudents/src/spreadsheet/AppManager.py:68-70 | a loaded field holds no `,` |
| SpreadsheetIO.FieldRoundTrip | SpreadsheetMarkerForStudents/src/spreadsheet/AppManager.py:39-70 | a field without `,` that is not `"0"` is restored exactly |
| SpreadsheetIO.TrimTrailing | SpreadsheetMarkerForStudents/src/spreadsheet/AppManager.py:40-41 | the result is a prefix that does not end in `""`, and everything dropped was `""` |
| SpreadsheetIO.Cleaned | SpreadsheetMarkerForStudents/src/spreadsheet/AppManager.py:37-42 | no cleaned field holds `;`, and no cleaned row ends in `""` |
| SpreadsheetIO.CleanRow | SpreadsheetMarkerForStudents/src/spreadsheet/AppManager.py:38-41 | the comprehension and popping loop give the cleaned row, each kept field cleaned |
| SpreadsheetIO.CleanValues | SpreadsheetMarkerForStudents/src/spreadsheet/AppManager.py:37-42 | every row of the array is replaced in place by its cleaned form |
| SpreadsheetIO.SavedLines | SpreadsheetMarkerForStudents/src/spreadsheet/AppManager.py:44-46 | one line per cleaned row, then a blank line |
| SpreadsheetIO.SaveSheet | SpreadsheetMarkerForStudents/src/spreadsheet/AppManager.py:34-46 | the text written is the saved lines of the rows before cleaning |
| SpreadsheetIO.LineEnd | SpreadsheetMarkerForStudents/src/spreadsheet/AppManager.py:65 | a line ends just after its first newline, or at the end of the text |
| SpreadsheetIO.ReadLinesLossless | SpreadsheetMarkerForStudents/src/spreadsheet/AppManager.py:65 | `readlines` loses nothing |
| SpreadsheetIO.ReadLinesConcat | SpreadsheetMarkerForStudents/src/spreadsheet/AppManager.py:44-65 | lines written with their newlines are read back exactly |
| SpreadsheetIO.RestoreRow | SpreadsheetMarkerForStudents/src/spreadsheet/AppManager.py:68-70 | a loaded row keeps its length, and no field holds `,` |
| SpreadsheetIO.LoadedRowsShape | SpreadsheetMarkerForStudents/src/spreadsheet/AppManager.py:64-70 | each loaded row has at least one field, none holding `,` |
| SpreadsheetIO.BlankLineSkipped | SpreadsheetMarkerForStudents/src/spreadsheet/AppManager.py:66 | a blank line adds no row |
| SpreadsheetIO.ReadLine | SpreadsheetMarkerForStudents/src/spreadsheet/AppManager.py:66-67 | a line gives one row, or none iff it strips to nothing |
| SpreadsheetIO.ReadRows | SpreadsheetMarkerForStudents/src/spreadsheet/AppManager.py:64-67 | the loop splits every non-blank line on `;` |
| SpreadsheetIO.LoadSheet | SpreadsheetMarkerForStudents/src/spreadsheet/AppManager.py:62-70 | the rows loaded are the split lines with `,` turned back into `;` |
| SpreadsheetIO.SplitSaved | SpreadsheetMarkerForStudents/src/spreadsheet/AppManager.py:44-67 | splitting the saved lines gives the non-empty cleaned rows |
| SpreadsheetIO.SaveLoad | SpreadsheetMarkerForStudents/src/spreadsheet/AppManager.py:37-70 | loading what was saved gives the restored non-empty cleaned rows; rows that clean to nothing are skipped |
| SpreadsheetIO.TrimClean | SpreadsheetMarkerForStudents/src/spreadsheet/AppManager.py:39-41 | without `"0"` fields, trimming and cleaning commute |
| SpreadsheetIO.RowRoundTrip | SpreadsheetMarkerForStudents/src/spreadsheet/AppManager.py:39-70 | a row without `,` or `"0"` loads back as itself without its trailing empty fields |

## Left out

- Floating point: `float`, `/`, `**` and `is_integer` are exact arithmetic on `real`; rounding, `nan` and `inf` are not modelled.
- Postfix.Power: a non-integral exponent (Python gives a float, or a complex number for a negative base) is the error `PowerNotModelled` instead of a value.
- Content.Get: Python's float parser behind `is_float` is a parameter `parseFloat`, so which strings are float-parsable is not modelled.
- Postfix.LiteralValue: `float(token)` of a digit literal is its exact decimal value.
- The regular-expression engine is not modelled; the eight token classes are hand-written prefix recognisers over ASCII.
- Coordinates.ColNum2Text: columns above `MaxModelledColumn` are excluded, because their first character would fall in or past the UTF-16 surrogate block.
- Coordinates.Repr: the same bound on the column.
- Spreadsheet.Spreadsheet.Expand: `Spreadsheet.expand` is not part of this model's sources. Its contract is what its callers rely on: the bounds grow, existing cells are kept, new cells are default, and the cell is then present when its column and row are both at least 1. The model assumes that `expand` never adds a cell in column 0 or row 0, since the grid keeps its keys in the rectangle from (1, 1). That assumption is what makes `edit_cell("1", …)` or `edit_cell("A0", …)` end with `KeyNotFound` from `_update_dependencies`. Its body is one way to meet the contract.
- `Spreadsheet.get_values` and `Spreadsheet.from_values` are not part of this model; save and load work on the rows as lists of strings.
- File handles, paths and directories in `save_sheet`, `load_sheet`, `load_spreadsheet_from_file` and `save_spreadsheet_to_file` are left out; the written text and the lines read are values. Python's text-mode newline translation is not modelled either: the lines read are split at `\n` only. A `\r\n` ending still loses its `\r` to `strip`, but a lone `\r`, which Python reads as a line break, stays inside one line in the model.
- The console interface, `run`, `execute_command`, `read_commands_from_file`, `create_new_sheet` and the `get_cell_*`/`set_cell_content` helpers are left out: they are I/O and dispatch around `edit_cell`.
- `Tokenizer.get_tokens` (splitting strings on spaces) is left out; nothing calls it.
- The `print` in `resolve_ranges` and the `deepcopy` mechanics are left out; the snapshot is a value copy of the map.
- Content objects are values. A method that sets a value in place returns the updated content, and its owner (the evaluator or the grid cell) stores it back. In the source each content object belongs to one cell, so no sharing is lost.
- The draft files of the root `spreadsheet/` tree are left out, except `spreadsheet/Spreadsheet.py`.
- AppManager.AppManager.RecomputeDependents: the grid of each recomputed cell's last evaluation is pinned down outside the recomputed cells (as at the start, new cells default), but not on the recomputed cells themselves, which hold whichever refreshed value they had at that moment; and the contract does not count how many times each cell was evaluated (the work list allows repeats).
- AppManager.AppManager.UpdateDependencies: requires the map to mirror the grid and the grid's formulas to have recorded dependencies. The source keeps both true between edits, and the removal loop relies on them.
- FormulaEvaluator.FormulaEvaluator.Evaluate: the model takes the grid the conversion reads to be the grid before the call. It reads a cell that `expand` adds during the call as the default value 0, which is what `Spreadsheet.expand` is assumed to store; `expand` is not part of this model.
- Content.IsNumeric: `str.isnumeric()` is modelled for ASCII digits only. Python also accepts other numeric characters such as `½` or `²`, for which `int()` then raises `ValueError`; that path is not modelled.
- Strings.IsSpace: only ASCII white space is stripped; Python's `strip` also removes other Unicode white space.
- Coordinates.FirstDigit: `\d` in the coordinate pattern is modelled as an ASCII digit; Python's `re` also matches other Unicode decimal digits.
