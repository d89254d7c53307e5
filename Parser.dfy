/**
 * The parser stage of the formula pipeline: the grammar check on the token
 * list, range expansion, and the rewriting of function calls into
 * parenthesised operator chains.
 */
module Parser {
  import opened Wrappers
  import opened Strings
  import opened Coordinates
  import Grid = Spreadsheet
  import opened Tokenizer

  // ---------------------------------------------------------------------
  // Grammar check
  // ---------------------------------------------------------------------

  /** `posterior_rules`: the classes that may follow a token of class `a`. */
  predicate MayFollow(a: TokenKind, b: TokenKind)
  {
    match a
    case Operator => b in {Function, Cell, Literal, Open}
    case Function => b == Open
    case Range => b in {Close, Separator}
    case Cell => b in {Operator, Cell, Close, Separator}
    case Literal => b in {Operator, Close, Separator}
    case Open => b in {Function, Range, Cell, Literal}
    case Close => b in {Operator, Close, Separator}
    case Separator => b in {Function, Range, Cell, Literal}
  }

  /** `start_rule` */
  predicate MayStart(k: TokenKind) { k in {Function, Cell, Literal, Open} }

  /** `end_rule` */
  predicate MayEnd(k: TokenKind) { k in {Cell, Literal, Close} }

  /** +1 for `(`, -1 for `)`, 0 otherwise. */
  function Delta(t: Token): int
  {
    if t.kind == Open then 1 else if t.kind == Close then -1 else 0
  }

  /** Opening minus closing parentheses in `ts`. */
  function Balance(ts: seq<Token>): int
  {
    if ts == [] then 0 else Balance(ts[..|ts| - 1]) + Delta(ts[|ts| - 1])
  }

  predicate AdjacentOk(tokens: seq<Token>)
  {
    forall i :: 0 <= i < |tokens| - 1 ==> MayFollow(tokens[i].kind, tokens[i + 1].kind)
  }

  /** What `parse` accepts: the four rules, with the parenthesis rule a net count only. */
  predicate WellFormed(tokens: seq<Token>)
  {
    |tokens| > 0
    && AdjacentOk(tokens)
    && MayStart(tokens[0].kind)
    && MayEnd(tokens[|tokens| - 1].kind)
    && Balance(tokens) == 0
  }

  /**
   * `Parser.parse`: the tokens come back unchanged exactly when they are well
   * formed; an empty list fails on its first index, anything else that breaks
   * a rule is rejected as invalid.
   */
  method Parse(tokens: seq<Token>) returns (r: Result<seq<Token>>)
    ensures r.Ok? <==> WellFormed(tokens)
    ensures r.Ok? ==> r.value == tokens
    ensures r.Err? && tokens == [] ==> r.error == IndexOutOfRange
    ensures r.Err? && tokens != [] ==> r.error == InvalidFormula
  {
    var i := 0;
    while i + 1 < |tokens|
      invariant 0 <= i <= |tokens|
      invariant i > 0 ==> i < |tokens|
      invariant forall j :: 0 <= j < i ==> MayFollow(tokens[j].kind, tokens[j + 1].kind)
    {
      if !MayFollow(tokens[i].kind, tokens[i + 1].kind) {
        return Err(InvalidFormula);
      }
      i := i + 1;
    }
    if |tokens| == 0 {
      return Err(IndexOutOfRange);
    }
    if !MayStart(tokens[0].kind) {
      return Err(InvalidFormula);
    }
    if !MayEnd(tokens[|tokens| - 1].kind) {
      return Err(InvalidFormula);
    }
    var parenthesisCounter := 0;
    var k := 0;
    while k < |tokens|
      invariant 0 <= k <= |tokens|
      invariant parenthesisCounter == Balance(tokens[..k])
    {
      assert tokens[..k + 1][..k] == tokens[..k];
      if tokens[k].kind == Open {
        parenthesisCounter := parenthesisCounter + 1;
      } else if tokens[k].kind == Close {
        parenthesisCounter := parenthesisCounter - 1;
      }
      k := k + 1;
    }
    assert tokens[..|tokens|] == tokens;
    if parenthesisCounter != 0 {
      return Err(InvalidFormula);
    }
    return Ok(tokens);
  }

  /** Tokens of the formula `1)+(1`: `)` before `(`. */
  const SwappedParentheses: seq<Token> :=
    [Token("1", Literal), Token(")", Close), Token("+", Operator), Token("(", Open), Token("1", Literal)]

  lemma BalanceStep(ts: seq<Token>, k: nat)
    requires k < |ts|
    ensures Balance(ts[..k + 1]) == Balance(ts[..k]) + Delta(ts[k])
  {
    assert ts[..k + 1][..k] == ts[..k];
  }

  /** Only the net count of parentheses is checked: `1)+(1` is accepted. */
  lemma NetCountOnly()
    ensures WellFormed(SwappedParentheses)
    ensures Balance(SwappedParentheses[..2]) < 0
  {
    var t := SwappedParentheses;
    assert t[..0] == [];
    BalanceStep(t, 0);
    BalanceStep(t, 1);
    BalanceStep(t, 2);
    BalanceStep(t, 3);
    BalanceStep(t, 4);
    assert t[..5] == t;
  }

  /** The tokenizer's output for `MAX(A3:B3)+4*C5` is well formed. */
  lemma ExampleWellFormed()
    ensures WellFormed(Lex(ExampleText).tokens)
  {
    TokenizeExample();
    ExampleTokensWellFormed(Lex(ExampleText).tokens);
  }

  lemma ExampleTokensWellFormed(t: seq<Token>)
    requires t == [Token("MAX", Function), Token("(", Open), Token("A3:B3", Range), Token(")", Close),
                   Token("+", Operator), Token("4", Literal), Token("*", Operator), Token("C5", Cell)]
    ensures WellFormed(t)
  {
    ExampleAdjacent(t);
    ExampleBalance(t);
  }

  /** Every adjacent pair of the example is one the rules allow. */
  lemma ExampleAdjacent(t: seq<Token>)
    requires t == [Token("MAX", Function), Token("(", Open), Token("A3:B3", Range), Token(")", Close),
                   Token("+", Operator), Token("4", Literal), Token("*", Operator), Token("C5", Cell)]
    ensures AdjacentOk(t)
  {
    forall i | 0 <= i < |t| - 1
      ensures MayFollow(t[i].kind, t[i + 1].kind)
    {
      assert i in {0, 1, 2, 3, 4, 5, 6};
    }
  }

  /** The example opens and closes one parenthesis. */
  lemma ExampleBalance(t: seq<Token>)
    requires t == [Token("MAX", Function), Token("(", Open), Token("A3:B3", Range), Token(")", Close),
                   Token("+", Operator), Token("4", Literal), Token("*", Operator), Token("C5", Cell)]
    ensures Balance(t) == 0
  {
    assert t[..0] == [];
    BalanceStep(t, 0);
    BalanceStep(t, 1);
    BalanceStep(t, 2);
    BalanceStep(t, 3);
    BalanceStep(t, 4);
    BalanceStep(t, 5);
    BalanceStep(t, 6);
    BalanceStep(t, 7);
    assert t[..8] == t;
  }

  /** `MAX)A3:B3)+4*C5` is rejected: a function name must be followed by `(`. */
  lemma ExampleRejected(s: string)
    requires s == "MAX)A3:B3)+4*C5"
    ensures !WellFormed(Lex(s).tokens)
  {
    var rest := s[3..];
    assert rest == ")A3:B3)+4*C5";
    FirstMatchAfterMax();
    FirstMatchAtClosing();
    LexStep(s);
    LexStep(rest);
    var tokens := Lex(s).tokens;
    assert tokens[0].kind == Function && tokens[1].kind == Close;
    BadPairRejected(tokens, 0);
  }

  /** One adjacent pair that breaks the adjacency rules is enough to reject. */
  lemma BadPairRejected(tokens: seq<Token>, i: nat)
    requires i + 1 < |tokens| && !MayFollow(tokens[i].kind, tokens[i + 1].kind)
    ensures !WellFormed(tokens)
  {
    assert !AdjacentOk(tokens);
  }

  lemma FirstMatchAfterMax()
    ensures FirstMatch("MAX)A3:B3)+4*C5") == Some((Function, 3))
  {
  }

  lemma FirstMatchAtClosing()
    ensures FirstMatch(")A3:B3)+4*C5") == Some((Close, 1))
  {
  }

  // ---------------------------------------------------------------------
  // Range expansion
  // ---------------------------------------------------------------------

  /** The cell tokens a range stands for, in enumeration order. */
  function CellTokens(coords: seq<Coord>): (r: seq<Token>)
    requires forall i :: 0 <= i < |coords| ==> coords[i].col <= MaxModelledColumn
    ensures |r| == |coords|
    ensures forall i :: 0 <= i < |r| ==> r[i] == Token(Repr(coords[i]), Cell)
  {
    if coords == [] then [] else [Token(Repr(coords[0]), Cell)] + CellTokens(coords[1..])
  }

  /** The expansion of one range token against the grid's cells. */
  function ExpandRange(text: string, cells: map<Coord, Grid.Cell>): (r: Result<seq<Token>>)
    ensures r.Ok? ==> forall i :: 0 <= i < |r.value| ==> r.value[i].kind == Cell
  {
    var (ul, lr) :- RangeFromText(text);
    var coords := Grid.RangeCoords(ul.col, ul.row, lr.col, lr.row);
    if exists k :: k in coords && k !in cells then Err(KeyNotFound)
    else if exists k :: k in coords && k.col > MaxModelledColumn then Err(MalformedCoordinates)
    else Ok(CellTokens(coords))
  }

  /** One token after resolution: a range expands, anything else stays. */
  function ResolveOne(t: Token, cells: map<Coord, Grid.Cell>): (r: Result<seq<Token>>)
    ensures t.kind != Range ==> r == Ok([t])
    ensures r.Ok? ==> forall i :: 0 <= i < |r.value| ==> r.value[i].kind != Range
  {
    if t.kind == Range then ExpandRange(t.text, cells) else Ok([t])
  }

  /**
   * `resolve_ranges`: every range token is replaced by the cell tokens of its
   * rectangle (column by column, rows inside); the other tokens are kept.
   */
  function ResolveRanges(tokens: seq<Token>, cells: map<Coord, Grid.Cell>): (r: Result<seq<Token>>)
    ensures r.Ok? ==> forall i :: 0 <= i < |r.value| ==> r.value[i].kind != Range
  {
    if tokens == [] then Ok([])
    else
      var head :- ResolveOne(tokens[0], cells);
      var tail :- ResolveRanges(tokens[1..], cells);
      Ok(head + tail)
  }

  /** Without range tokens nothing changes. */
  lemma {:induction false} ResolveRangesIdentity(tokens: seq<Token>, cells: map<Coord, Grid.Cell>)
    requires forall i :: 0 <= i < |tokens| ==> tokens[i].kind != Range
    ensures ResolveRanges(tokens, cells) == Ok(tokens)
  {
    if tokens != [] {
      ResolveRangesIdentity(tokens[1..], cells);
      assert [tokens[0]] + tokens[1..] == tokens;
    }
  }

  /** Resolving twice is the same as resolving once. */
  lemma ResolveRangesIdempotent(tokens: seq<Token>, cells: map<Coord, Grid.Cell>)
    requires ResolveRanges(tokens, cells).Ok?
    ensures ResolveRanges(ResolveRanges(tokens, cells).value, cells) == ResolveRanges(tokens, cells)
  {
    ResolveRangesIdentity(ResolveRanges(tokens, cells).value, cells);
  }

  /**
   * A range inside columns A to ZZ expands to tokens that read back, in
   * order, as the coordinates of its rectangle, all present in the grid.
   */
  lemma RangeTokensReadBack(text: string, cells: map<Coord, Grid.Cell>, ul: Coord, lr: Coord, i: nat)
    requires RangeFromText(text) == Ok((ul, lr)) && 1 <= ul.col && lr.col <= 702
    requires ExpandRange(text, cells).Ok?
    requires i < |ExpandRange(text, cells).value|
    ensures FromText(ExpandRange(text, cells).value[i].text)
            == Ok(Grid.RangeCoords(ul.col, ul.row, lr.col, lr.row)[i])
    ensures Grid.RangeCoords(ul.col, ul.row, lr.col, lr.row)[i] in cells
  {
    var coords := Grid.RangeCoords(ul.col, ul.row, lr.col, lr.row);
    assert ExpandRange(text, cells) == Ok(CellTokens(coords));
    var k := coords[i];
    assert k in coords;
    Grid.RangeCoordsMembers(ul.col, ul.row, lr.col, lr.row, k);
    assert ExpandRange(text, cells).value[i] == Token(Repr(k), Cell);
    ReprRoundTrip(k);
  }

  /** Where resolution fails: the first range that is malformed or leaves the grid. */
  lemma ResolveRangesFails(tokens: seq<Token>, cells: map<Coord, Grid.Cell>)
    ensures ResolveRanges(tokens, cells).Err? <==>
              exists i :: 0 <= i < |tokens| && tokens[i].kind == Range && ExpandRange(tokens[i].text, cells).Err?
  {
    if tokens != [] {
      ResolveRangesFails(tokens[1..], cells);
      if ResolveRanges(tokens, cells).Err? && !(tokens[0].kind == Range && ExpandRange(tokens[0].text, cells).Err?) {
        var i :| 0 <= i < |tokens[1..]| && tokens[1..][i].kind == Range && ExpandRange(tokens[1..][i].text, cells).Err?;
        assert tokens[i + 1] == tokens[1..][i];
      }
    }
  }

  // ---------------------------------------------------------------------
  // Matching parenthesis
  // ---------------------------------------------------------------------

  /**
   * One past the token at or after `start` that brings the open-parenthesis
   * count `depth` down to zero; None when the tokens run out first.
   */
  function CloseIndex(tokens: seq<Token>, start: nat, depth: nat): (r: Option<nat>)
    requires depth >= 1
    ensures r.Some? ==> start < r.value <= |tokens| && tokens[r.value - 1].kind == Close
    decreases |tokens| - start
  {
    if start >= |tokens| then None
    else
      var d := depth + Delta(tokens[start]);
      if d == 0 then Some(start + 1) else CloseIndex(tokens, start + 1, d)
  }

  /**
   * The index `CloseIndex` finds is the first point after `start` where the
   * tokens since `start` hold one more `)` than `(`; before it the count
   * never went that low.
   */
  lemma CloseIndexIsMatching(tokens: seq<Token>, start: nat, depth: nat)
    requires depth >= 1 && start <= |tokens|
    ensures CloseIndex(tokens, start, depth).Some? ==>
              var j := CloseIndex(tokens, start, depth).value;
              depth + Balance(tokens[start..j]) == 0
              && forall k :: start <= k < j ==> depth + Balance(tokens[start..k]) > 0
    ensures CloseIndex(tokens, start, depth).None? ==>
              forall k :: start <= k <= |tokens| ==> depth + Balance(tokens[start..k]) > 0
  {
    CloseIndexFound(tokens, start, depth);
    CloseIndexMissing(tokens, start, depth);
  }

  /** When `CloseIndex` finds an index, the count reaches zero there and not before. */
  lemma {:induction false} CloseIndexFound(tokens: seq<Token>, start: nat, depth: nat)
    requires depth >= 1 && start <= |tokens|
    ensures CloseIndex(tokens, start, depth).Some? ==>
              var j := CloseIndex(tokens, start, depth).value;
              depth + Balance(tokens[start..j]) == 0
              && forall k :: start <= k < j ==> depth + Balance(tokens[start..k]) > 0
    decreases |tokens| - start
  {
    assert tokens[start..start] == [];
    if start < |tokens| {
      var d := depth + Delta(tokens[start]);
      if d == 0 {
        BalanceFrom(tokens, start, start + 1);
        assert tokens[start + 1..start + 1] == [];
      } else {
        var r := CloseIndex(tokens, start + 1, d);
        assert CloseIndex(tokens, start, depth) == r;
        if r.Some? {
          CloseIndexFound(tokens, start + 1, d);
          FoundAfterFirst(tokens, start, start + 1, depth, d, r.value);
        }
      }
    }
  }

  /** A match found from the next token is a match found from `start`. */
  lemma FoundAfterFirst(tokens: seq<Token>, start: nat, next: nat, depth: nat, d: int, j: nat)
    requires next == start + 1 && next <= j <= |tokens|
    requires depth >= 1 && d == depth + Delta(tokens[start])
    requires d + Balance(tokens[next..j]) == 0
    requires forall k :: next <= k < j ==> d + Balance(tokens[next..k]) > 0
    ensures depth + Balance(tokens[start..j]) == 0
    ensures forall k :: start <= k < j ==> depth + Balance(tokens[start..k]) > 0
  {
    CountAfterFirst(tokens, start, depth, d);
    assert tokens[start..start] == [];
    forall k | start <= k < j
      ensures depth + Balance(tokens[start..k]) > 0
    {
      if k > start {
        assert d + Balance(tokens[next..k]) > 0;
      }
    }
  }

  /** When `CloseIndex` finds nothing, the count stays positive to the end. */
  lemma {:induction false} CloseIndexMissing(tokens: seq<Token>, start: nat, depth: nat)
    requires depth >= 1 && start <= |tokens|
    ensures CloseIndex(tokens, start, depth).None? ==>
              forall k :: start <= k <= |tokens| ==> depth + Balance(tokens[start..k]) > 0
    decreases |tokens| - start
  {
    assert tokens[start..start] == [];
    if start < |tokens| {
      var d := depth + Delta(tokens[start]);
      if d != 0 && CloseIndex(tokens, start + 1, d).None? {
        assert CloseIndex(tokens, start, depth).None?;
        CloseIndexMissing(tokens, start + 1, d);
        CountAfterFirst(tokens, start, depth, d);
        forall k | start <= k <= |tokens|
          ensures depth + Balance(tokens[start..k]) > 0
        {
          if k > start {
            assert d + Balance(tokens[start + 1..k]) > 0;
          }
        }
      }
    }
  }

  /** Counting from `start` is counting from the next token with its delta added to `depth`. */
  lemma CountAfterFirst(tokens: seq<Token>, start: nat, depth: nat, d: int)
    requires start < |tokens| && d == depth + Delta(tokens[start])
    ensures forall k :: start + 1 <= k <= |tokens| ==>
              depth + Balance(tokens[start..k]) == d + Balance(tokens[start + 1..k])
  {
    forall k | start + 1 <= k <= |tokens|
      ensures depth + Balance(tokens[start..k]) == d + Balance(tokens[start + 1..k])
    {
      BalanceFrom(tokens, start, k);
    }
  }

  /** The count from `start` is the first token's delta plus the count after it. */
  lemma BalanceFrom(tokens: seq<Token>, start: nat, k: nat)
    requires start < k <= |tokens|
    ensures Balance(tokens[start..k]) == Delta(tokens[start]) + Balance(tokens[start + 1..k])
  {
    BalanceCons(tokens[start], tokens[start + 1..k]);
    assert tokens[start..k] == [tokens[start]] + tokens[start + 1..k];
  }

  lemma {:induction false} BalanceCons(t: Token, ts: seq<Token>)
    ensures Balance([t] + ts) == Delta(t) + Balance(ts)
    decreases |ts|
  {
    if ts != [] {
      var s := [t] + ts;
      assert s[..|s| - 1] == [t] + ts[..|ts| - 1];
      BalanceCons(t, ts[..|ts| - 1]);
    } else {
      assert [t][..0] == [];
    }
  }

  lemma {:induction false} BalanceAppend(a: seq<Token>, b: seq<Token>)
    ensures Balance(a + b) == Balance(a) + Balance(b)
    decreases |b|
  {
    if b == [] {
      assert a + b == a;
    } else {
      assert (a + b)[..|a + b| - 1] == a + b[..|b| - 1];
      BalanceAppend(a, b[..|b| - 1]);
    }
  }

  /**
   * `_advance_until_closed_parenthesis`: starting inside one open `(`, the
   * index one past the `)` that closes it; an index error when the tokens
   * end first.
   */
  method AdvanceUntilClosedParenthesis(tokens: seq<Token>, startIdx: nat) returns (r: Result<nat>)
    ensures r.Ok? <==> CloseIndex(tokens, startIdx, 1).Some?
    ensures r.Ok? ==> r.value == CloseIndex(tokens, startIdx, 1).value
    ensures r.Err? ==> r.error == IndexOutOfRange
  {
    var numOpenParenthesis: nat := 1;
    var idx := startIdx;
    while numOpenParenthesis != 0
      invariant numOpenParenthesis >= 1 ==> CloseIndex(tokens, startIdx, 1) == CloseIndex(tokens, idx, numOpenParenthesis)
      invariant numOpenParenthesis == 0 ==> idx >= 1 && CloseIndex(tokens, startIdx, 1) == Some(idx)
      decreases |tokens| - idx, numOpenParenthesis
    {
      if idx >= |tokens| {
        return Err(IndexOutOfRange);
      }
      if tokens[idx].kind == Open {
        numOpenParenthesis := numOpenParenthesis + 1;
      } else if tokens[idx].kind == Close {
        numOpenParenthesis := numOpenParenthesis - 1;
      }
      idx := idx + 1;
    }
    return Ok(idx);
  }

  // ---------------------------------------------------------------------
  // Function expansion
  // ---------------------------------------------------------------------

  const OpenToken := Token("(", Open)
  const CloseToken := Token(")", Close)

  /** `function_operator`: the operator a function's arguments are joined with. */
  function FunctionOperator(name: string): (r: Result<string>)
    ensures r.Ok? <==> name in FunctionNames
    ensures r.Ok? ==> r.value in {"+", "m", "M"}
    ensures r.Err? ==> r.error == UnknownFunction
  {
    if name == "SUMA" then Ok("+")
    else if name == "MIN" then Ok("m")
    else if name == "MAX" then Ok("M")
    else if name == "PROMEDIO" then Ok("+")
    else Err(UnknownFunction)
  }

  /** Tokens from `idx` to the end (a termination measure). */
  function Remaining(tokens: seq<Token>, idx: nat): nat
  {
    if idx < |tokens| then |tokens| - idx else 0
  }

  /** `_advance_until_closed_parenthesis` as a value. */
  function Advance(tokens: seq<Token>, start: nat): (r: Result<nat>)
    ensures r.Ok? ==> start < r.value <= |tokens| && tokens[r.value - 1].kind == Close
    ensures r.Err? ==> r.error == IndexOutOfRange
  {
    match CloseIndex(tokens, start, 1)
    case Some(j) => Ok(j)
    case None => Err(IndexOutOfRange)
  }

  /**
   * After an operand the function's operator goes out unless the next input
   * token is `)`; reading past the end is an index error.
   */
  function OperatorAfter(op: string, tokens: seq<Token>, idx: nat): (r: Result<seq<Token>>)
    ensures r.Ok? <==> idx < |tokens|
    ensures r.Ok? ==> r.value == (if tokens[idx].kind == Close then [] else [Token(op, Operator)])
  {
    if idx >= |tokens| then Err(IndexOutOfRange)
    else if tokens[idx].kind == Close then Ok([])
    else Ok([Token(op, Operator)])
  }

  /**
   * The loop of `function2operator` from `idx`: the emitted tokens and the
   * number of operands, up to the `)` that ends the argument list (or the
   * end of the tokens).  Nested calls are expanded in place.
   */
  function Arguments(op: string, tokens: seq<Token>, idx: nat): Result<(seq<Token>, nat)>
    decreases Remaining(tokens, idx), 0
  {
    if idx >= |tokens| then Ok(([], 0))
    else
      var t := tokens[idx];
      if t.kind == Close then Ok(([], 0))
      else if t.kind == Function then
        var inner :- FunctionToOperator(t.text, tokens, idx + 2);
        var next :- Advance(tokens, idx + 2);
        var sep :- OperatorAfter(op, tokens, next);
        var rest :- Arguments(op, tokens, next);
        Ok((inner + sep + rest.0, rest.1 + 1))
      else if t.kind == Cell || t.kind == Literal then
        var sep :- OperatorAfter(op, tokens, idx + 1);
        var rest :- Arguments(op, tokens, idx + 1);
        Ok(([t] + sep + rest.0, rest.1 + 1))
      else
        Arguments(op, tokens, idx + 1)
  }

  /**
   * `function2operator(name, tokens, idx)`, with `idx` just past the call's
   * `(`: `( a op b op ... )`, and for `PROMEDIO` `(( a + b + ... ) / n)`.
   */
  function FunctionToOperator(name: string, tokens: seq<Token>, idx: nat): Result<seq<Token>>
    decreases Remaining(tokens, idx), 1
  {
    var op :- FunctionOperator(name);
    var args :- Arguments(op, tokens, idx);
    if name == "PROMEDIO" then
      Ok([OpenToken, OpenToken] + args.0
         + [CloseToken, Token("/", Operator), Token(NatToDecimal(args.1), Literal), CloseToken])
    else
      Ok([OpenToken] + args.0 + [CloseToken])
  }

  /** The loop of `transform_functions_to_operators` from `idx`. */
  function TransformFrom(tokens: seq<Token>, idx: nat): Result<seq<Token>>
    decreases Remaining(tokens, idx)
  {
    if idx >= |tokens| then Ok([])
    else if tokens[idx].kind != Function then
      var rest :- TransformFrom(tokens, idx + 1);
      Ok([tokens[idx]] + rest)
    else
      var inner :- FunctionToOperator(tokens[idx].text, tokens, idx + 2);
      var next :- Advance(tokens, idx + 2);
      var rest :- TransformFrom(tokens, next);
      Ok(inner + rest)
  }

  /** `transform_functions_to_operators`: every call is rewritten into operators. */
  function TransformFunctionsToOperators(tokens: seq<Token>): Result<seq<Token>>
  {
    TransformFrom(tokens, 0)
  }

  /** The classes an expanded call is made of. */
  predicate Expanded(t: Token)
  {
    t.kind in {Open, Close, Operator, Cell, Literal}
  }

  predicate AllExpanded(ts: seq<Token>)
  {
    forall i :: 0 <= i < |ts| ==> Expanded(ts[i])
  }

  lemma AllExpandedAppend(a: seq<Token>, b: seq<Token>)
    requires AllExpanded(a) && AllExpanded(b)
    ensures AllExpanded(a + b)
  {
  }

  /**
   * An expanded argument list holds only parentheses, operators, cells and
   * literals, with as many `(` as `)`: no function name, separator or range
   * survives.
   */
  lemma {:induction false} ArgumentsExpanded(op: string, tokens: seq<Token>, idx: nat)
    requires op in {"+", "m", "M"}
    ensures Arguments(op, tokens, idx).Ok? ==>
              AllExpanded(Arguments(op, tokens, idx).value.0) && Balance(Arguments(op, tokens, idx).value.0) == 0
    decreases Remaining(tokens, idx), 0
  {
    if idx < |tokens| && Arguments(op, tokens, idx).Ok? {
      var t := tokens[idx];
      if t.kind == Function {
        FunctionToOperatorExpanded(t.text, tokens, idx + 2);
        var inner := FunctionToOperator(t.text, tokens, idx + 2).value;
        var next := Advance(tokens, idx + 2).value;
        var sep := OperatorAfter(op, tokens, next).value;
        ArgumentsExpanded(op, tokens, next);
        var rest := Arguments(op, tokens, next).value.0;
        JoinExpanded(inner, sep, rest, op);
        assert Arguments(op, tokens, idx).value.0 == inner + sep + rest;
      } else if t.kind == Cell || t.kind == Literal {
        var sep := OperatorAfter(op, tokens, idx + 1).value;
        ArgumentsExpanded(op, tokens, idx + 1);
        var rest := Arguments(op, tokens, idx + 1).value.0;
        SepBalance([t], op);
        JoinExpanded([t], sep, rest, op);
        assert Arguments(op, tokens, idx).value.0 == [t] + sep + rest;
      } else if t.kind != Close {
        ArgumentsExpanded(op, tokens, idx + 1);
      }
    }
  }

  /** An expanded operand, an optional operator and an expanded rest make an expanded list. */
  lemma JoinExpanded(a: seq<Token>, sep: seq<Token>, rest: seq<Token>, op: string)
    requires AllExpanded(a) && Balance(a) == 0
    requires sep == [] || sep == [Token(op, Operator)]
    requires AllExpanded(rest) && Balance(rest) == 0
    ensures AllExpanded(a + sep + rest) && Balance(a + sep + rest) == 0
  {
    AllExpandedAppend(a, sep);
    AllExpandedAppend(a + sep, rest);
    BalanceAppend(a, sep);
    BalanceAppend(a + sep, rest);
    SepBalance(sep, op);
  }

  lemma SepBalance(ts: seq<Token>, op: string)
    requires |ts| <= 1 && forall i :: 0 <= i < |ts| ==> ts[i].kind != Open && ts[i].kind != Close
    ensures Balance(ts) == 0
  {
    if |ts| == 1 {
      assert ts[..0] == [];
    }
  }

  /** The same for a whole call: it is expanded and balanced. */
  lemma {:induction false} FunctionToOperatorExpanded(name: string, tokens: seq<Token>, idx: nat)
    ensures FunctionToOperator(name, tokens, idx).Ok? ==>
              AllExpanded(FunctionToOperator(name, tokens, idx).value)
              && Balance(FunctionToOperator(name, tokens, idx).value) == 0
    decreases Remaining(tokens, idx), 1
  {
    if FunctionToOperator(name, tokens, idx).Ok? {
      var op := FunctionOperator(name).value;
      ArgumentsExpanded(op, tokens, idx);
      var args := Arguments(op, tokens, idx).value;
      if name == "PROMEDIO" {
        AverageWrapped(args.0, NatToDecimal(args.1));
      } else {
        Wrapped(args.0);
      }
    }
  }

  /** `( args )` is expanded and balanced when `args` is. */
  lemma Wrapped(args: seq<Token>)
    requires AllExpanded(args) && Balance(args) == 0
    ensures AllExpanded([OpenToken] + args + [CloseToken])
    ensures Balance([OpenToken] + args + [CloseToken]) == 0
  {
    BalanceAppend([OpenToken], args);
    BalanceAppend([OpenToken] + args, [CloseToken]);
    assert [OpenToken][..0] == [] && [CloseToken][..0] == [];
    AllExpandedAppend([OpenToken], args);
    AllExpandedAppend([OpenToken] + args, [CloseToken]);
  }

  /** `(( args ) / n)` is expanded and balanced when `args` is. */
  lemma AverageWrapped(args: seq<Token>, n: string)
    requires AllExpanded(args) && Balance(args) == 0
    ensures var tail := [CloseToken, Token("/", Operator), Token(n, Literal), CloseToken];
            AllExpanded([OpenToken, OpenToken] + args + tail)
            && Balance([OpenToken, OpenToken] + args + tail) == 0
  {
    var tail := [CloseToken, Token("/", Operator), Token(n, Literal), CloseToken];
    BalanceAppend([OpenToken, OpenToken], args);
    BalanceAppend([OpenToken, OpenToken] + args, tail);
    BalanceStep([OpenToken, OpenToken], 0);
    BalanceStep([OpenToken, OpenToken], 1);
    assert [OpenToken, OpenToken][..0] == [] && [OpenToken, OpenToken][..2] == [OpenToken, OpenToken];
    assert tail[..0] == [];
    BalanceStep(tail, 0);
    BalanceStep(tail, 1);
    BalanceStep(tail, 2);
    BalanceStep(tail, 3);
    assert tail[..4] == tail;
    AllExpandedAppend([OpenToken, OpenToken], args);
    AllExpandedAppend([OpenToken, OpenToken] + args, tail);
  }

  /** After the rewrite no function token is left. */
  lemma {:induction false} TransformRemovesFunctions(tokens: seq<Token>, idx: nat)
    ensures TransformFrom(tokens, idx).Ok? ==>
              forall i :: 0 <= i < |TransformFrom(tokens, idx).value| ==> TransformFrom(tokens, idx).value[i].kind != Function
    decreases Remaining(tokens, idx)
  {
    if idx < |tokens| && TransformFrom(tokens, idx).Ok? {
      if tokens[idx].kind != Function {
        TransformRemovesFunctions(tokens, idx + 1);
      } else {
        FunctionToOperatorExpanded(tokens[idx].text, tokens, idx + 2);
        TransformRemovesFunctions(tokens, Advance(tokens, idx + 2).value);
      }
    }
  }

  /** Tokens without a function call pass through unchanged. */
  lemma {:induction false} TransformIdentity(tokens: seq<Token>, idx: nat)
    requires idx <= |tokens|
    requires forall i :: idx <= i < |tokens| ==> tokens[i].kind != Function
    ensures TransformFrom(tokens, idx) == Ok(tokens[idx..])
    decreases |tokens| - idx
  {
    if idx < |tokens| {
      TransformIdentity(tokens, idx + 1);
      assert [tokens[idx]] + tokens[idx + 1..] == tokens[idx..];
    }
  }

  /** `x1 ; x2 ; ... ; xn`: operands written as an argument list. */
  function ArgumentList(xs: seq<Token>): seq<Token>
  {
    if |xs| <= 1 then xs else [xs[0], Token(";", Separator)] + ArgumentList(xs[1..])
  }

  /** `x1 op x2 op ... op xn` */
  function Chain(xs: seq<Token>, op: string): seq<Token>
  {
    if |xs| <= 1 then xs else [xs[0], Token(op, Operator)] + Chain(xs[1..], op)
  }

  lemma {:induction false} ArgumentListLength(xs: seq<Token>)
    ensures |ArgumentList(xs)| == if xs == [] then 0 else 2 * |xs| - 1
  {
    if |xs| > 1 {
      ArgumentListLength(xs[1..]);
    }
  }

  /**
   * A flat argument list of cells and literals separated by `;` and closed by
   * `)` becomes the operands joined by the function's operator, with no
   * operator before the `)`.
   */
  lemma {:induction false} FlatArguments(op: string, tokens: seq<Token>, idx: nat, xs: seq<Token>)
    requires |xs| >= 1 && forall i :: 0 <= i < |xs| ==> xs[i].kind in {Cell, Literal}
    requires idx + |ArgumentList(xs)| < |tokens|
    requires tokens[idx..idx + |ArgumentList(xs)|] == ArgumentList(xs)
    requires tokens[idx + |ArgumentList(xs)|].kind == Close
    ensures Arguments(op, tokens, idx) == Ok((Chain(xs, op), |xs|))
    decreases |xs|
  {
    var n := |ArgumentList(xs)|;
    assert tokens[idx] == tokens[idx..idx + n][0];
    if |xs| == 1 {
      assert tokens[idx + 1].kind == Close;
      assert [xs[0]] + [] + [] == xs;
    } else {
      WindowSplit(tokens, idx, xs);
      FlatArguments(op, tokens, idx + 2, xs[1..]);
      OperandThenSeparator(op, tokens, idx, (Chain(xs[1..], op), |xs| - 1));
      assert Chain(xs, op) == [xs[0], Token(op, Operator)] + Chain(xs[1..], op);
    }
  }

  /** An operand followed by `;` emits the operand and the operator, then whatever follows the `;` emits. */
  lemma OperandThenSeparator(op: string, tokens: seq<Token>, idx: nat, rest: (seq<Token>, nat))
    requires idx + 1 < |tokens| && tokens[idx].kind in {Cell, Literal} && tokens[idx + 1].kind == Separator
    requires Arguments(op, tokens, idx + 2) == Ok(rest)
    ensures Arguments(op, tokens, idx) == Ok(([tokens[idx], Token(op, Operator)] + rest.0, rest.1 + 1))
  {
    assert Arguments(op, tokens, idx + 1) == Arguments(op, tokens, idx + 2);
    assert OperatorAfter(op, tokens, idx + 1) == Ok([Token(op, Operator)]);
    assert [tokens[idx]] + [Token(op, Operator)] + rest.0 == [tokens[idx], Token(op, Operator)] + rest.0;
  }

  /** A window holding the list of two or more arguments: the first, a `;`, then the list of the rest. */
  lemma WindowSplit(tokens: seq<Token>, idx: nat, xs: seq<Token>)
    requires |xs| >= 2
    requires idx + |ArgumentList(xs)| < |tokens|
    requires tokens[idx..idx + |ArgumentList(xs)|] == ArgumentList(xs)
    ensures tokens[idx] == xs[0] && tokens[idx + 1] == Token(";", Separator)
    ensures idx + 2 + |ArgumentList(xs[1..])| == idx + |ArgumentList(xs)|
    ensures tokens[idx + 2..idx + 2 + |ArgumentList(xs[1..])|] == ArgumentList(xs[1..])
  {
    var rest := ArgumentList(xs[1..]);
    assert ArgumentList(xs) == [xs[0], Token(";", Separator)] + rest;
    SliceFront(tokens, idx, ArgumentList(xs), xs[0], Token(";", Separator), rest);
  }

  /** Slicing a window `[a, b] + rest` out of `tokens` at `idx` puts `a`, `b` and `rest` in place. */
  lemma SliceFront(tokens: seq<Token>, idx: nat, w: seq<Token>, a: Token, b: Token, rest: seq<Token>)
    requires w == [a, b] + rest && idx + |w| <= |tokens| && tokens[idx..idx + |w|] == w
    ensures tokens[idx] == a && tokens[idx + 1] == b
    ensures tokens[idx + 2..idx + 2 + |rest|] == rest
  {
    assert tokens[idx] == w[0] && tokens[idx + 1] == w[1];
    assert tokens[idx + 2..idx + 2 + |rest|] == w[2..];
  }

  /** `SUMA(a;b;...)`, `MIN(...)`, `MAX(...)` over plain operands: `( a op b op ... )`. */
  lemma FlatCall(name: string, tokens: seq<Token>, idx: nat, xs: seq<Token>)
    requires name in FunctionNames
    requires |xs| >= 1 && forall i :: 0 <= i < |xs| ==> xs[i].kind in {Cell, Literal}
    requires idx + |ArgumentList(xs)| < |tokens|
    requires tokens[idx..idx + |ArgumentList(xs)|] == ArgumentList(xs)
    requires tokens[idx + |ArgumentList(xs)|].kind == Close
    ensures name != "PROMEDIO" ==>
              FunctionToOperator(name, tokens, idx) == Ok([OpenToken] + Chain(xs, FunctionOperator(name).value) + [CloseToken])
    ensures name == "PROMEDIO" ==>
              FunctionToOperator(name, tokens, idx)
              == Ok([OpenToken, OpenToken] + Chain(xs, "+")
                    + [CloseToken, Token("/", Operator), Token(NatToDecimal(|xs|), Literal), CloseToken])
  {
    FlatArguments(FunctionOperator(name).value, tokens, idx, xs);
  }

  /** A call at `idx` is replaced by its rewrite, and the rewriting goes on after its `)`. */
  lemma CallStep(tokens: seq<Token>, idx: nat, inner: seq<Token>, next: nat, rest: seq<Token>)
    requires idx < |tokens| && tokens[idx].kind == Function
    requires FunctionToOperator(tokens[idx].text, tokens, idx + 2) == Ok(inner)
    requires Advance(tokens, idx + 2) == Ok(next)
    requires TransformFrom(tokens, next) == Ok(rest)
    ensures TransformFrom(tokens, idx) == Ok(inner + rest)
  {
  }

  /** In `PROMEDIO(1;2)` the call is rewritten into `((1+2)/2)`. */
  lemma AverageExampleCall(tokens: seq<Token>)
    requires tokens == [Token("PROMEDIO", Function), OpenToken, Token("1", Literal), Token(";", Separator),
                        Token("2", Literal), CloseToken]
    ensures FunctionToOperator("PROMEDIO", tokens, 2)
            == Ok([OpenToken, OpenToken, Token("1", Literal), Token("+", Operator), Token("2", Literal),
                   CloseToken, Token("/", Operator), Token("2", Literal), CloseToken])
  {
    var xs := [Token("1", Literal), Token("2", Literal)];
    assert ArgumentList(xs) == [Token("1", Literal), Token(";", Separator), Token("2", Literal)];
    assert Chain(xs, "+") == [Token("1", Literal), Token("+", Operator), Token("2", Literal)];
    FlatCall("PROMEDIO", tokens, 2, xs);
    assert NatToDecimal(|xs|) == "2";
    assert [OpenToken, OpenToken] + Chain(xs, "+")
           + [CloseToken, Token("/", Operator), Token(NatToDecimal(|xs|), Literal), CloseToken]
        == [OpenToken, OpenToken, Token("1", Literal), Token("+", Operator), Token("2", Literal),
            CloseToken, Token("/", Operator), Token("2", Literal), CloseToken];
  }

  /** In `PROMEDIO(1;2)` the call's `)` is the last token. */
  lemma AverageExampleEnd(tokens: seq<Token>)
    requires tokens == [Token("PROMEDIO", Function), OpenToken, Token("1", Literal), Token(";", Separator),
                        Token("2", Literal), CloseToken]
    ensures Advance(tokens, 2) == Ok(6)
  {
    assert CloseIndex(tokens, 5, 1) == Some(6);
    assert CloseIndex(tokens, 4, 1) == Some(6);
    assert CloseIndex(tokens, 3, 1) == Some(6);
    assert CloseIndex(tokens, 2, 1) == Some(6);
  }

  /** `PROMEDIO(1;2)` becomes `((1+2)/2)`. */
  lemma AverageExample(tokens: seq<Token>)
    requires tokens == [Token("PROMEDIO", Function), OpenToken, Token("1", Literal), Token(";", Separator),
                        Token("2", Literal), CloseToken]
    ensures TransformFunctionsToOperators(tokens)
            == Ok([OpenToken, OpenToken, Token("1", Literal), Token("+", Operator), Token("2", Literal),
                   CloseToken, Token("/", Operator), Token("2", Literal), CloseToken])
  {
    var out := [OpenToken, OpenToken, Token("1", Literal), Token("+", Operator), Token("2", Literal),
                CloseToken, Token("/", Operator), Token("2", Literal), CloseToken];
    AverageExampleCall(tokens);
    AverageExampleEnd(tokens);
    assert TransformFrom(tokens, 6) == Ok([]);
    CallStep(tokens, 0, out, 6, []);
    assert out + [] == out;
  }
}
