/**
 * `FormulaEvaluator`: one formula together with the sheet it reads.
 * `get_tokens` runs the tokenizer, the grammar check, range expansion and
 * the rewriting of function calls; `evaluate` converts the tokens to
 * postfix, computes the value and stores it in the formula (an integral
 * float as an int); `update_dependencies` records the cells the formula
 * reads.
 */
module FormulaEvaluator {
  import opened Wrappers
  import opened Strings
  import opened Coordinates
  import opened Content
  import Grid = Spreadsheet
  import opened Tokenizer
  import opened Parser
  import opened Postfix

  // ---------------------------------------------------------------------
  // The token pipeline as a function
  // ---------------------------------------------------------------------

  /** The tokenizer's stage: the tokens of the text without spaces, or a malformed formula. */
  function Lexed(repr: string): (r: Result<seq<Token>>)
    ensures r.Ok? ==> Concat(r.value) == RemoveSpaces(repr)
    ensures r.Err? ==> r.error == MalformedFormula
  {
    var scan := Lex(RemoveSpaces(repr));
    if scan.rest == [] then
      LexConcat(RemoveSpaces(repr));
      Ok(scan.tokens)
    else Err(MalformedFormula)
  }

  /** The grammar check's stage, with the error `parse` raises. */
  function Checked(tokens: seq<Token>): (r: Result<seq<Token>>)
    ensures r.Ok? <==> WellFormed(tokens)
    ensures r.Ok? ==> r.value == tokens
  {
    if WellFormed(tokens) then Ok(tokens)
    else if tokens == [] then Err(IndexOutOfRange)
    else Err(InvalidFormula)
  }

  /** The tokens `get_tokens` produces for a formula text against the grid's cells. */
  function FormulaTokens(repr: string, cells: map<Coord, Grid.Cell>): Result<seq<Token>>
  {
    var lexed :- Lexed(repr);
    var parsed :- Checked(lexed);
    var resolved :- ResolveRanges(parsed, cells);
    TransformFunctionsToOperators(resolved)
  }

  /**
   * What `self.tokens` holds once `get_tokens` returns or raises: each
   * stage assigns the attribute, so a failure leaves the last stage that
   * succeeded (or the previous tokens when tokenizing or parsing fails).
   */
  function TokensAfterGet(previous: seq<Token>, repr: string, cells: map<Coord, Grid.Cell>): (t: seq<Token>)
    ensures FormulaTokens(repr, cells).Ok? ==> t == FormulaTokens(repr, cells).value
  {
    var lexed := Lexed(repr);
    if lexed.Err? || !WellFormed(lexed.value) then previous
    else
      var resolved := ResolveRanges(lexed.value, cells);
      if resolved.Err? then lexed.value
      else
        var transformed := TransformFunctionsToOperators(resolved.value);
        if transformed.Err? then resolved.value else transformed.value
  }

  /** Tokens kept by a rewrite of calls that had no range keep having none. */
  lemma {:induction false} TransformKeepsNoRange(tokens: seq<Token>, idx: nat)
    requires forall i :: 0 <= i < |tokens| ==> tokens[i].kind != Range
    ensures TransformFrom(tokens, idx).Ok? ==>
              forall i :: 0 <= i < |TransformFrom(tokens, idx).value| ==> TransformFrom(tokens, idx).value[i].kind != Range
    decreases Remaining(tokens, idx)
  {
    if idx < |tokens| && TransformFrom(tokens, idx).Ok? {
      if tokens[idx].kind != Function {
        TransformKeepsNoRange(tokens, idx + 1);
      } else {
        FunctionToOperatorExpanded(tokens[idx].text, tokens, idx + 2);
        TransformKeepsNoRange(tokens, Advance(tokens, idx + 2).value);
      }
    }
  }

  /**
   * The tokens a formula is evaluated from hold no function name and no
   * range: every call was rewritten and every range expanded.
   */
  lemma FormulaTokensExpanded(repr: string, cells: map<Coord, Grid.Cell>)
    ensures FormulaTokens(repr, cells).Ok? ==>
              forall i :: 0 <= i < |FormulaTokens(repr, cells).value| ==>
                FormulaTokens(repr, cells).value[i].kind !in {Function, Range}
  {
    if FormulaTokens(repr, cells).Ok? {
      var resolved := ResolveRanges(Lexed(repr).value, cells).value;
      TransformRemovesFunctions(resolved, 0);
      TransformKeepsNoRange(resolved, 0);
    }
  }

  /** A text the tokenizer cannot cut into tokens is rejected before any other stage. */
  lemma MalformedTextRejected(repr: string, cells: map<Coord, Grid.Cell>)
    requires Lex(RemoveSpaces(repr)).rest != []
    ensures FormulaTokens(repr, cells) == Err(MalformedFormula)
  {
  }

  /** Tokens that break a grammar rule are rejected before ranges are looked up in the grid. */
  lemma IllFormedRejected(repr: string, cells: map<Coord, Grid.Cell>)
    requires Lex(RemoveSpaces(repr)).rest == []
    requires !WellFormed(Lex(RemoveSpaces(repr)).tokens)
    ensures FormulaTokens(repr, cells).Err?
    ensures FormulaTokens(repr, cells).error
            == (if Lex(RemoveSpaces(repr)).tokens == [] then IndexOutOfRange else InvalidFormula)
  {
  }

  // ---------------------------------------------------------------------
  // Evaluation and normalisation
  // ---------------------------------------------------------------------

  /** `if isinstance(value, float) and value.is_integer(): value = int(value)`. */
  function Normalize(n: Number): (r: Number)
    ensures r.Real() == n.Real()
    ensures r.Int? <==> Integral(n)
  {
    if n.Float? && Integral(n) then Int(n.f.Floor) else n
  }

  /** Normalising twice changes nothing more. */
  lemma NormalizeIdempotent(n: Number)
    ensures Normalize(Normalize(n)) == Normalize(n)
  {
  }

  /** The value `evaluate` stores for tokens: postfix conversion, evaluation, normalisation. */
  function EvaluateTokens(tokens: seq<Token>, cells: map<Coord, Grid.Cell>): (r: Result<Number>)
    ensures r.Ok? ==> (r.value.Int? <==> Integral(r.value))
  {
    var items :- ShuntingYard(tokens, CellReader(cells));
    var v :- EvalPostfix(items);
    Ok(Normalize(v))
  }

  /** The tokens `evaluate` and `update_dependencies` use: the cached ones when there are any. */
  function TokensFor(cached: seq<Token>, repr: string, cells: map<Coord, Grid.Cell>): Result<seq<Token>>
  {
    if |cached| > 0 then Ok(cached) else FormulaTokens(repr, cells)
  }

  /** The outcome of `evaluate`: the value stored, or the error raised. */
  function Evaluation(cached: seq<Token>, repr: string, cells: map<Coord, Grid.Cell>): (r: Result<Number>)
    ensures r.Ok? ==> TokensFor(cached, repr, cells).Ok?
  {
    var tokens :- TokensFor(cached, repr, cells);
    EvaluateTokens(tokens, cells)
  }

  /** No tokens give no value: the evaluation ends with an empty stack. */
  lemma NoTokensNoValue(cells: map<Coord, Grid.Cell>)
    ensures EvaluateTokens([], cells) == Err(MalformedExpression)
  {
  }

  /**
   * `1+2*3` is computed as a float, 7.0, and stored as the int 7: the
   * multiplication binds tighter and the integral result is normalised.
   */
  lemma IntegralResultStoredAsInt(tokens: seq<Token>, cells: map<Coord, Grid.Cell>)
    requires tokens == [Token("1", Literal), Token("+", Operator), Token("2", Literal),
                        Token("*", Operator), Token("3", Literal)]
    ensures EvaluateTokens(tokens, cells) == Ok(Int(7))
  {
    PrecedenceExample(tokens, CellReader(cells));
    assert Normalize(Float(7.0)) == Int(7);
  }

  // ---------------------------------------------------------------------
  // Dependencies
  // ---------------------------------------------------------------------

  /** The texts of the cell tokens, in order and with repetitions (`filter(... == 3)`). */
  function CellTexts(tokens: seq<Token>): (r: seq<string>)
    ensures |r| <= |tokens|
  {
    if tokens == [] then []
    else (if tokens[0].kind == Cell then [tokens[0].text] else []) + CellTexts(tokens[1..])
  }

  /** `[Coordinates.from_text(cell) for cell, _ in cell_tokens]`: fails at the first bad text. */
  function ReadCoordinates(texts: seq<string>): (r: Result<seq<Coord>>)
    ensures r.Ok? <==> forall i :: 0 <= i < |texts| ==> FromText(texts[i]).Ok?
    ensures r.Ok? ==> |r.value| == |texts|
                      && forall i :: 0 <= i < |texts| ==> r.value[i] == FromText(texts[i]).value
  {
    if texts == [] then Ok([])
    else
      var c :- FromText(texts[0]);
      var rest :- ReadCoordinates(texts[1..]);
      Ok([c] + rest)
  }

  /** The dependencies `update_dependencies` records for tokens. */
  function DependenciesOf(tokens: seq<Token>): Result<seq<Coord>>
  {
    ReadCoordinates(CellTexts(tokens))
  }

  lemma {:induction false} CellTextsAppend(a: seq<Token>, b: seq<Token>)
    ensures CellTexts(a + b) == CellTexts(a) + CellTexts(b)
  {
    if a == [] {
      assert a + b == b;
    } else {
      var head := if a[0].kind == Cell then [a[0].text] else [];
      assert (a + b)[0] == a[0];
      assert (a + b)[1..] == a[1..] + b;
      assert CellTexts(a + b) == head + CellTexts(a[1..] + b);
      CellTextsAppend(a[1..], b);
      assert head + (CellTexts(a[1..]) + CellTexts(b)) == (head + CellTexts(a[1..])) + CellTexts(b);
    }
  }

  /** A run of cell tokens contributes each of its texts. */
  lemma {:induction false} CellTextsOfCells(tokens: seq<Token>)
    requires forall i :: 0 <= i < |tokens| ==> tokens[i].kind == Cell
    ensures |CellTexts(tokens)| == |tokens|
    ensures forall i :: 0 <= i < |tokens| ==> CellTexts(tokens)[i] == tokens[i].text
  {
    if tokens != [] {
      CellTextsOfCells(tokens[1..]);
    }
  }

  /**
   * A formula made of one range inside columns A to ZZ depends on exactly
   * the cells of the rectangle, in the order `get_range` lists them.
   */
  lemma RangeDependencies(text: string, cells: map<Coord, Grid.Cell>, ul: Coord, lr: Coord)
    requires RangeFromText(text) == Ok((ul, lr)) && 1 <= ul.col && lr.col <= 702
    requires ExpandRange(text, cells).Ok?
    ensures ResolveRanges([Token(text, Range)], cells) == ExpandRange(text, cells)
    ensures DependenciesOf(ExpandRange(text, cells).value)
            == Ok(Grid.RangeCoords(ul.col, ul.row, lr.col, lr.row))
  {
    var expanded := ExpandRange(text, cells).value;
    assert ResolveRanges([Token(text, Range)], cells) == Ok(expanded + []) by {
      assert [Token(text, Range)][1..] == [];
    }
    assert expanded + [] == expanded;
    CellTextsOfCells(expanded);
    var coords := Grid.RangeCoords(ul.col, ul.row, lr.col, lr.row);
    forall i | 0 <= i < |expanded|
      ensures FromText(CellTexts(expanded)[i]) == Ok(coords[i])
    {
      RangeTokensReadBack(text, cells, ul, lr, i);
    }
    assert |expanded| == |coords|;
    assert DependenciesOf(expanded).value == coords;
  }

  // ---------------------------------------------------------------------
  // The evaluator object
  // ---------------------------------------------------------------------

  class FormulaEvaluator {
    var formula: Content
    const sheet: Grid.Spreadsheet
    /** `None` until `get_tokens` runs; both None and an empty list are falsy, so [] stands for either. */
    var tokens: seq<Token>

    constructor(formula: Content, sheet: Grid.Spreadsheet)
      requires formula.Formula?
      ensures this.formula == formula && this.sheet == sheet && tokens == []
    {
      this.formula := formula;
      this.sheet := sheet;
      this.tokens := [];
    }

    /** `Tokenizer().tokenize(representation)`: a fresh tokenizer's token list. */
    static method TokenizeFresh(repr: string) returns (r: Result<seq<Token>>)
      ensures r == Lexed(repr)
    {
      var tokenizer := new Tokenizer();
      r := tokenizer.Tokenize(repr);
      if r.Ok? {
        assert r.value == Lex(RemoveSpaces(repr)).tokens by {
          assert [] + Lex(RemoveSpaces(repr)).tokens == Lex(RemoveSpaces(repr)).tokens;
        }
      }
    }

    /**
     * `get_tokens`: tokenize the representation with a fresh tokenizer, check
     * the grammar, expand the ranges against the grid and rewrite the calls,
     * storing each stage's result in `tokens`.
     */
    method GetTokens() returns (r: Result<seq<Token>>)
      requires formula.Formula?
      modifies this
      ensures formula == old(formula)
      ensures r == FormulaTokens(formula.representation, sheet.cells)
      ensures tokens == TokensAfterGet(old(tokens), formula.representation, sheet.cells)
    {
      var lexed := TokenizeFresh(formula.representation);
      if lexed.Err? {
        return Err(lexed.error);
      }
      var parsed := Parse(lexed.value);
      if parsed.Err? {
        assert Checked(lexed.value) == Err(parsed.error);
        return Err(parsed.error);
      }
      assert Checked(lexed.value) == parsed;
      tokens := parsed.value;
      var resolved := ResolveRanges(tokens, sheet.cells);
      if resolved.Err? {
        return Err(resolved.error);
      }
      tokens := resolved.value;
      var transformed := TransformFunctionsToOperators(tokens);
      if transformed.Err? {
        return Err(transformed.error);
      }
      tokens := transformed.value;
      return Ok(tokens);
    }

    /**
     * `evaluate`: the cached tokens (or fresh ones) are converted to postfix,
     * which may add default cells to the grid, and evaluated; the value is
     * normalised and stored in the formula.  On failure the formula keeps its
     * value.
     */
    method Evaluate() returns (r: Result<()>)
      requires formula.Formula? && sheet.Valid()
      modifies this, sheet
      ensures sheet.Valid()
      ensures forall k :: k in old(sheet.cells) ==> k in sheet.cells && sheet.cells[k] == old(sheet.cells)[k]
      ensures forall k :: k in sheet.cells && k !in old(sheet.cells) ==> sheet.cells[k].content == DefaultContent
      ensures r.Ok? <==> Evaluation(old(tokens), old(formula).representation, old(sheet.cells)).Ok?
      ensures r.Ok? ==> formula.Formula? && formula.value.Some?
                        && formula.representation == old(formula).representation
                        && formula.dependencies == old(formula).dependencies
      ensures r.Ok? ==> formula == old(formula).SetValue(NumberValue(
                          Evaluation(old(tokens), old(formula).representation, old(sheet.cells)).value))
      ensures r.Err? ==> formula == old(formula)
                         && r.error == Evaluation(old(tokens), old(formula).representation, old(sheet.cells)).error
      ensures tokens == if |old(tokens)| > 0 then old(tokens)
                        else TokensAfterGet(old(tokens), old(formula).representation, old(sheet.cells))
    {
      var toks := tokens;
      if |toks| == 0 {
        var got := GetTokens();
        if got.Err? {
          return Err(got.error);
        }
        toks := got.value;
      }
      var postfix := GeneratePostfixExpression(toks, sheet);
      if postfix.Err? {
        return Err(postfix.error);
      }
      var value := EvaluatePostfixExpression(postfix.value);
      if value.Err? {
        return Err(value.error);
      }
      formula := formula.SetValue(NumberValue(Normalize(value.value)));
      return Ok(());
    }

    /**
     * `update_dependencies`: the coordinates of the cell tokens of the cached
     * (or fresh) tokens, in order and with repetitions, are stored in the
     * formula.
     */
    method UpdateDependencies() returns (r: Result<()>)
      requires formula.Formula?
      modifies this
      ensures r.Ok? <==> TokensFor(old(tokens), old(formula).representation, sheet.cells).Ok?
                         && DependenciesOf(TokensFor(old(tokens), old(formula).representation, sheet.cells).value).Ok?
      ensures r.Ok? ==> formula == old(formula).SetDependencies(
                          DependenciesOf(TokensFor(old(tokens), old(formula).representation, sheet.cells).value).value)
      ensures r.Err? ==> formula == old(formula)
      ensures r.Err? ==> r.error == if TokensFor(old(tokens), old(formula).representation, sheet.cells).Err?
                                    then TokensFor(old(tokens), old(formula).representation, sheet.cells).error
                                    else DependenciesOf(TokensFor(old(tokens), old(formula).representation, sheet.cells).value).error
      ensures tokens == if |old(tokens)| > 0 then old(tokens)
                        else TokensAfterGet(old(tokens), old(formula).representation, sheet.cells)
    {
      var toks := tokens;
      if |toks| == 0 {
        var got := GetTokens();
        if got.Err? {
          return Err(got.error);
        }
        toks := got.value;
      }
      var deps := DependenciesOf(toks);
      if deps.Err? {
        return Err(deps.error);
      }
      formula := formula.SetDependencies(deps.value);
      return Ok(());
    }
  }
}
