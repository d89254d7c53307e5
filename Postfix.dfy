/**
 * `PostfixExpressionManager`: the shunting-yard conversion of an expanded
 * token list into postfix order, the binary operations, and the stack
 * evaluation of a postfix expression.
 */
module Postfix {
  import opened Wrappers
  import opened Strings
  import opened Coordinates
  import opened Content
  import Grid = Spreadsheet
  import opened Tokenizer
  import opened Parser

  /** An element of a postfix expression: a number, or any other value (taken as an operator). */
  datatype PostfixItem = Operand(number: Number) | Symbol(symbol: string)

  // ---------------------------------------------------------------------
  // Binary operations
  // ---------------------------------------------------------------------

  function IntPow(x: int, e: nat): int
  {
    if e == 0 then 1 else x * IntPow(x, e - 1)
  }

  function RealPow(x: real, e: nat): real
  {
    if e == 0 then 1.0 else x * RealPow(x, e - 1)
  }

  lemma {:induction false} RealPowOfInt(x: int, e: nat)
    ensures RealPow(x as real, e) == IntPow(x, e) as real
  {
    if e > 0 {
      RealPowOfInt(x, e - 1);
    }
  }

  lemma {:induction false} RealPowNonZero(x: real, e: nat)
    requires x != 0.0
    ensures RealPow(x, e) != 0.0
  {
    if e > 0 {
      RealPowNonZero(x, e - 1);
    }
  }

  /** A number with no fractional part. */
  predicate Integral(n: Number)
  {
    n.Int? || n.f == n.f.Floor as real
  }

  /**
   * Python's `a ** b` for an integral exponent: an int when both are ints
   * and the exponent is not negative, otherwise a float; zero to a negative
   * power divides by zero.
   */
  function Power(a: Number, b: Number): (r: Result<Number>)
    ensures r.Err? <==> !Integral(b) || (b.Real() < 0.0 && a.Real() == 0.0)
    ensures r.Err? ==> r.error == (if Integral(b) then DivisionByZero else PowerNotModelled)
    ensures r.Ok? ==> (r.value.Int? <==> a.Int? && b.Int? && b.Real() >= 0.0)
    ensures r.Ok? && b.Real() >= 0.0 ==> r.value.Real() == RealPow(a.Real(), b.Real().Floor as nat)
    ensures r.Ok? && b.Real() < 0.0 ==> r.value.Real() * RealPow(a.Real(), -b.Real().Floor) == 1.0
  {
    if !Integral(b) then Err(PowerNotModelled)
    else
      var e := b.Real().Floor;
      if e >= 0 then
        if a.Int? && b.Int? then
          RealPowOfInt(a.i, e);
          Ok(Int(IntPow(a.i, e)))
        else Ok(Float(RealPow(a.Real(), e)))
      else if a.Real() == 0.0 then Err(DivisionByZero)
      else
        RealPowNonZero(a.Real(), -e);
        Ok(Float(1.0 / RealPow(a.Real(), -e)))
  }

  /** Python's `a + b`: an int when both are ints, the exact sum either way. */
  function Sum(a: Number, b: Number): (r: Number)
    ensures (r.Int? <==> a.Int? && b.Int?) && r.Real() == a.Real() + b.Real()
  {
    if a.Int? && b.Int? then Int(a.i + b.i) else Float(a.Real() + b.Real())
  }

  /** Python's `a - b`: an int when both are ints, the exact difference either way. */
  function Difference(a: Number, b: Number): (r: Number)
    ensures (r.Int? <==> a.Int? && b.Int?) && r.Real() == a.Real() - b.Real()
  {
    if a.Int? && b.Int? then Int(a.i - b.i) else Float(a.Real() - b.Real())
  }

  /** Python's `a * b`: an int when both are ints, the exact product either way. */
  function Product(a: Number, b: Number): (r: Number)
    ensures (r.Int? <==> a.Int? && b.Int?) && r.Real() == a.Real() * b.Real()
  {
    if a.Int? && b.Int? then
      assert (a.i * b.i) as real == a.Real() * b.Real();
      Int(a.i * b.i)
    else Float(a.Real() * b.Real())
  }

  /** Python's `a / b` on a non-zero divisor: always a float, the exact quotient. */
  function Quotient(a: Number, b: Number): (r: Number)
    requires b.Real() != 0.0
    ensures r.Float? && r.Real() * b.Real() == a.Real()
  {
    var x, y := a.Real(), b.Real();
    assert (x / y) * y == x;
    Float(x / y)
  }

  /** Python's `min(a, b)`: the first argument unless the second is strictly smaller. */
  function Smaller(a: Number, b: Number): (r: Number)
    ensures r == a || r == b
    ensures r.Real() <= a.Real() && r.Real() <= b.Real()
    ensures a.Real() <= b.Real() ==> r == a
  {
    if b.Real() < a.Real() then b else a
  }

  /** Python's `max(a, b)`: the first argument unless the second is strictly larger. */
  function Larger(a: Number, b: Number): (r: Number)
    ensures r == a || r == b
    ensures r.Real() >= a.Real() && r.Real() >= b.Real()
    ensures a.Real() >= b.Real() ==> r == a
  {
    if b.Real() > a.Real() then b else a
  }

  /** The operator symbols `evaluate_operation` knows. */
  predicate KnownOperator(op: string)
  {
    op in {"+", "-", "*", "/", "^", "m", "M"}
  }

  /**
   * `evaluate_operation(a, b, op)`.  `+ - *` keep ints when both operands
   * are ints; `/` always gives a float; `m` and `M` are Python's `min` and
   * `max`, which return the first argument on a tie.
   */
  function EvaluateOperation(a: Number, b: Number, op: string): (r: Result<Number>)
    ensures !KnownOperator(op) <==> r == Err(BadOperator)
    ensures op in {"+", "-", "*"} ==> r.Ok? && (r.value.Int? <==> a.Int? && b.Int?)
    ensures op == "+" ==> r.Ok? && r.value.Real() == a.Real() + b.Real()
    ensures op == "-" ==> r.Ok? && r.value.Real() == a.Real() - b.Real()
    ensures op == "*" ==> r.Ok? && r.value.Real() == a.Real() * b.Real()
    ensures op == "/" ==> (r.Ok? <==> b.Real() != 0.0)
    ensures op == "/" && r.Ok? ==> r.value.Float? && r.value.Real() * b.Real() == a.Real()
    ensures op == "/" && r.Err? ==> r.error == DivisionByZero
    ensures op == "m" ==> r.Ok? && (r.value == a || r.value == b)
                          && r.value.Real() <= a.Real() && r.value.Real() <= b.Real()
                          && (a.Real() <= b.Real() ==> r.value == a)
    ensures op == "M" ==> r.Ok? && (r.value == a || r.value == b)
                          && r.value.Real() >= a.Real() && r.value.Real() >= b.Real()
                          && (a.Real() >= b.Real() ==> r.value == a)
    ensures op == "^" ==> r == Power(a, b)
  {
    if op == "+" then Ok(Sum(a, b))
    else if op == "-" then Ok(Difference(a, b))
    else if op == "*" then Ok(Product(a, b))
    else if op == "/" then
      if b.Real() == 0.0 then Err(DivisionByZero) else Ok(Quotient(a, b))
    else if op == "^" then Power(a, b)
    else if op == "m" then Ok(Smaller(a, b))
    else if op == "M" then Ok(Larger(a, b))
    else
      Err(BadOperator)
  }

  // ---------------------------------------------------------------------
  // Postfix evaluation
  // ---------------------------------------------------------------------

  /**
   * The operand stack after the items, from `stack`: a number is pushed, any
   * other item pops b then a and pushes `a op b`; fewer than two operands is
   * a malformed expression.
   */
  function EvalItems(items: seq<PostfixItem>, stack: seq<Number>): Result<seq<Number>>
  {
    if items == [] then Ok(stack)
    else match items[0]
      case Operand(n) => EvalItems(items[1..], stack + [n])
      case Symbol(op) =>
        if |stack| < 2 then Err(MalformedExpression)
        else
          var v := EvaluateOperation(stack[|stack| - 2], stack[|stack| - 1], op);
          if v.Err? then Err(v.error) else EvalItems(items[1..], stack[..|stack| - 2] + [v.value])
  }

  /** The value of a postfix expression: exactly one number must be left. */
  function EvalPostfix(items: seq<PostfixItem>): Result<Number>
  {
    var stack :- EvalItems(items, []);
    if |stack| != 1 then Err(MalformedExpression) else Ok(stack[0])
  }

  /** Evaluation runs item by item: a concatenation is evaluated in two stages. */
  lemma {:induction false} EvalItemsAppend(a: seq<PostfixItem>, b: seq<PostfixItem>, stack: seq<Number>)
    ensures EvalItems(a + b, stack)
            == (if EvalItems(a, stack).Ok? then EvalItems(b, EvalItems(a, stack).value)
                else EvalItems(a, stack))
    decreases |a|
  {
    if a == [] {
      assert a + b == b;
    } else {
      assert (a + b)[0] == a[0];
      assert (a + b)[1..] == a[1..] + b;
      if a[0].Operand? {
        EvalItemsAppend(a[1..], b, stack + [a[0].number]);
      } else if |stack| >= 2 {
        var v := EvaluateOperation(stack[|stack| - 2], stack[|stack| - 1], a[0].symbol);
        if v.Ok? {
          EvalItemsAppend(a[1..], b, stack[..|stack| - 2] + [v.value]);
        }
      }
    }
  }

  /**
   * Postfix evaluation is compositional: when `pa` leaves x on top of the
   * stack and `pb` then leaves y, `pa pb op` leaves `x op y`.
   */
  lemma BinaryPostfix(pa: seq<PostfixItem>, pb: seq<PostfixItem>, op: string, stack: seq<Number>, x: Number, y: Number)
    requires EvalItems(pa, stack) == Ok(stack + [x])
    requires EvalItems(pb, stack + [x]) == Ok(stack + [x, y])
    ensures EvalItems(pa + pb + [Symbol(op)], stack)
            == (if EvaluateOperation(x, y, op).Ok? then Ok(stack + [EvaluateOperation(x, y, op).value])
                else Err(EvaluateOperation(x, y, op).error))
  {
    EvalItemsAppend(pa + pb, [Symbol(op)], stack);
    EvalItemsAppend(pa, pb, stack);
    var s := stack + [x, y];
    assert s[|s| - 2] == x && s[|s| - 1] == y && s[..|s| - 2] == stack;
  }

  /**
   * `evaluate_postfix_expression`: the operand stack as a list, numbers
   * pushed, operators applied to the two topmost numbers.
   */
  method EvaluatePostfixExpression(items: seq<PostfixItem>) returns (r: Result<Number>)
    ensures r == EvalPostfix(items)
  {
    var stack: seq<Number> := [];
    var i := 0;
    while i < |items|
      invariant 0 <= i <= |items|
      invariant EvalItems(items, []) == EvalItems(items[i..], stack)
    {
      assert items[i..][1..] == items[i + 1..];
      if items[i].Operand? {
        stack := stack + [items[i].number];
      } else {
        if |stack| < 2 {
          return Err(MalformedExpression);
        }
        var b := stack[|stack| - 1];
        var a := stack[|stack| - 2];
        stack := stack[..|stack| - 2];
        var v := EvaluateOperation(a, b, items[i].symbol);
        if v.Err? {
          return Err(v.error);
        }
        stack := stack + [v.value];
      }
      i := i + 1;
    }
    if |stack| != 1 {
      return Err(MalformedExpression);
    }
    return Ok(stack[0]);
  }

  // ---------------------------------------------------------------------
  // Shunting-yard
  // ---------------------------------------------------------------------

  /** The precedence table: `+ -` 1, `* /` 2, `^ M m` 3. */
  function Precedence(op: string): (r: Option<nat>)
    ensures r.Some? <==> KnownOperator(op)
    ensures r.Some? ==> 1 <= r.value <= 3
  {
    if op in {"+", "-"} then Some(1)
    else if op in {"*", "/"} then Some(2)
    else if op in {"^", "M", "m"} then Some(3)
    else None
  }

  /** `float(token)` for a literal token: digits only (the tokenizer's literals). */
  function LiteralValue(text: string): (r: Result<Number>)
    ensures r.Ok? <==> |text| > 0 && AllDigits(text)
    ensures r.Ok? ==> r.value == Float(DigitsValue(text) as real)
  {
    if |text| > 0 && AllDigits(text) then Ok(Float(DigitsValue(text) as real)) else Err(MalformedExpression)
  }

  /** What a value read from a cell becomes in the output. */
  function ItemOf(v: Value): PostfixItem
  {
    match v
    case NumberValue(n) => Operand(n)
    case TextValue(t) => Symbol(t)
  }

  /**
   * The output item of a cell token, read against the cells the grid had
   * before the conversion: a cell outside the grid is created by `expand`
   * with default content (so reads as 0) when both indices are positive,
   * and is a missing key otherwise.
   */
  function CellItem(text: string, cells: map<Coord, Grid.Cell>): (r: Result<PostfixItem>)
    ensures r.Ok? && FromText(text).Ok? && FromText(text).value !in cells ==> r.value == Operand(Int(0))
  {
    var c :- FromText(text);
    if c in cells then
      var v :- cells[c].GetValue();
      Ok(ItemOf(v))
    else if c.col >= 1 && c.row >= 1 then Ok(Operand(Int(0)))
    else Err(KeyNotFound)
  }

  /** What the conversion reads for the text of a cell token. */
  type Reader = string -> Result<PostfixItem>

  /** Cell tokens read against the cells the grid had before the conversion. */
  function CellReader(cells: map<Coord, Grid.Cell>): Reader
  {
    text => CellItem(text, cells)
  }

  /** The operator stack (token texts, top last) and the output so far. */
  datatype ShuntState = ShuntState(stack: seq<string>, output: seq<PostfixItem>)

  function Top(stack: seq<string>): string
    requires |stack| > 0
  {
    stack[|stack| - 1]
  }

  /**
   * Before pushing operator `op`: pop operators whose precedence is at least
   * that of `op` (a `(` or an unknown symbol on top stops the popping).
   * Looking up an unknown `op` is a missing key, but only once it is compared.
   */
  function PopOperators(st: ShuntState, op: string): Result<ShuntState>
    decreases |st.stack|
  {
    if |st.stack| == 0 || Precedence(Top(st.stack)).None? then Ok(st)
    else if Precedence(op).None? then Err(KeyNotFound)
    else if Precedence(Top(st.stack)).value >= Precedence(op).value then
      PopOperators(ShuntState(st.stack[..|st.stack| - 1], st.output + [Symbol(Top(st.stack))]), op)
    else Ok(st)
  }

  /**
   * Popping removes a top part of the stack and moves it, top first, to the
   * output; afterwards the top, if an operator, binds less tightly than `op`,
   * so operators of equal precedence associate to the left.
   */
  lemma PopOperatorsShape(st: ShuntState, op: string)
    ensures PopOperators(st, op).Ok? ==>
              var r := PopOperators(st, op).value;
              |r.stack| <= |st.stack| && r.stack == st.stack[..|r.stack|]
              && r.output == st.output + Flush(st.stack[|r.stack|..])
              && (|r.stack| > 0 && Precedence(Top(r.stack)).Some? ==>
                    Precedence(Top(r.stack)).value < Precedence(op).value)
              && (forall j :: |r.stack| <= j < |st.stack| ==> KnownOperator(st.stack[j]))
    ensures PopOperators(st, op).Err? <==>
              |st.stack| > 0 && Precedence(Top(st.stack)).Some? && Precedence(op).None?
  {
    PopOperatorsErr(st, op);
    if PopOperators(st, op).Ok? {
      PopOperatorsOk(st, op, PopOperators(st, op).value);
    }
  }

  /** Popping fails exactly when an unknown `op` meets a known operator on top. */
  lemma {:induction false} PopOperatorsErr(st: ShuntState, op: string)
    ensures PopOperators(st, op).Err? <==>
              |st.stack| > 0 && Precedence(Top(st.stack)).Some? && Precedence(op).None?
    decreases |st.stack|
  {
    if |st.stack| > 0 && Precedence(Top(st.stack)).Some? && Precedence(op).Some?
       && Precedence(Top(st.stack)).value >= Precedence(op).value {
      var next := ShuntState(st.stack[..|st.stack| - 1], st.output + [Symbol(Top(st.stack))]);
      assert PopOperators(st, op) == PopOperators(next, op);
      PopOperatorsErr(next, op);
    }
  }

  /** The shape of a successful popping. */
  lemma {:induction false} PopOperatorsOk(st: ShuntState, op: string, r: ShuntState)
    requires PopOperators(st, op) == Ok(r)
    ensures |r.stack| <= |st.stack| && r.stack == st.stack[..|r.stack|]
    ensures r.output == st.output + Flush(st.stack[|r.stack|..])
    ensures |r.stack| > 0 && Precedence(Top(r.stack)).Some? ==>
              Precedence(Top(r.stack)).value < Precedence(op).value
    ensures forall j :: |r.stack| <= j < |st.stack| ==> KnownOperator(st.stack[j])
    decreases |st.stack|
  {
    if |st.stack| > 0 && Precedence(Top(st.stack)).Some? && Precedence(op).Some?
       && Precedence(Top(st.stack)).value >= Precedence(op).value {
      var next := ShuntState(st.stack[..|st.stack| - 1], st.output + [Symbol(Top(st.stack))]);
      assert PopOperators(st, op) == PopOperators(next, op);
      PopOperatorsOk(next, op, r);
      PopOkStep(st, r);
    } else {
      assert r == st;
      assert st.stack[|st.stack|..] == [];
    }
  }

  /** The shape of a popping carries over from the stack below a known top operator. */
  lemma PopOkStep(st: ShuntState, r: ShuntState)
    requires |st.stack| > 0 && KnownOperator(Top(st.stack))
    requires var rest := st.stack[..|st.stack| - 1];
             |r.stack| <= |rest| && r.stack == rest[..|r.stack|]
             && r.output == st.output + [Symbol(Top(st.stack))] + Flush(rest[|r.stack|..])
             && (forall j :: |r.stack| <= j < |rest| ==> KnownOperator(rest[j]))
    ensures |r.stack| <= |st.stack| && r.stack == st.stack[..|r.stack|]
    ensures r.output == st.output + Flush(st.stack[|r.stack|..])
    ensures forall j :: |r.stack| <= j < |st.stack| ==> KnownOperator(st.stack[j])
  {
    var rest := st.stack[..|st.stack| - 1];
    var n := |r.stack|;
    PopSplit(st.stack, n, n);
    assert r.output == st.output + ([Symbol(Top(st.stack))] + Flush(rest[n..]));
    forall j | n <= j < |st.stack| ensures KnownOperator(st.stack[j]) {
      if j < |rest| {
        assert st.stack[j] == rest[j];
      }
    }
  }

  /**
   * Popping the top of `stack`: the rest keeps the bottom part, and the
   * top part flushes as the top followed by the rest's top part.
   */
  lemma PopSplit(stack: seq<string>, m: nat, n: nat)
    requires m <= n < |stack|
    ensures stack[..|stack| - 1][..m] == stack[..m]
    ensures Flush(stack[n..]) == [Symbol(Top(stack))] + Flush(stack[..|stack| - 1][n..])
  {
    assert stack[n..] == stack[..|stack| - 1][n..] + [Top(stack)];
    FlushAppend(stack[..|stack| - 1][n..], Top(stack));
  }

  /**
   * At `)`: pop into the output, by their first character, everything above
   * the nearest `(`, then drop the `(`; without a `(` the parentheses do not
   * match.
   */
  function CloseParenthesis(st: ShuntState): (r: Result<ShuntState>)
    ensures r.Ok? ==> "(" in st.stack && |r.value.stack| < |st.stack|
    ensures "(" !in st.stack && "" !in st.stack ==> r == Err(MalformedExpression)
    decreases |st.stack|
  {
    if |st.stack| == 0 then Err(MalformedExpression)
    else if Top(st.stack) == "(" then
      Ok(ShuntState(st.stack[..|st.stack| - 1], st.output))
    else if Top(st.stack) == "" then Err(IndexOutOfRange)
    else
      var rest := st.stack[..|st.stack| - 1];
      assert st.stack == rest + [Top(st.stack)];
      CloseParenthesis(ShuntState(rest, st.output + [Symbol([Top(st.stack)[0]])]))
  }

  /** The end of the conversion: the stack goes to the output, top first. */
  function Flush(stack: seq<string>): (r: seq<PostfixItem>)
    ensures |r| == |stack|
  {
    if stack == [] then [] else [Symbol(Top(stack))] + Flush(stack[..|stack| - 1])
  }

  lemma FlushAppend(stack: seq<string>, x: string)
    ensures Flush(stack + [x]) == [Symbol(x)] + Flush(stack)
  {
    assert (stack + [x])[..|stack|] == stack;
  }

  /** One token of the conversion loop. */
  function ShuntStep(st: ShuntState, t: Token, read: Reader): Result<ShuntState>
  {
    match t.kind
    case Literal =>
      var n :- LiteralValue(t.text);
      Ok(ShuntState(st.stack, st.output + [Operand(n)]))
    case Cell =>
      var item :- read(t.text);
      Ok(ShuntState(st.stack, st.output + [item]))
    case Operator =>
      var popped :- PopOperators(st, t.text);
      Ok(ShuntState(popped.stack + [t.text], popped.output))
    case Open => Ok(ShuntState(st.stack + [t.text], st.output))
    case Close => CloseParenthesis(st)
    case _ => Ok(st)
  }

  /** The state after the conversion loop has read `tokens`. */
  function ShuntPrefix(tokens: seq<Token>, read: Reader): Result<ShuntState>
  {
    if tokens == [] then Ok(ShuntState([], []))
    else
      var st :- ShuntPrefix(tokens[..|tokens| - 1], read);
      ShuntStep(st, tokens[|tokens| - 1], read)
  }

  /** `generate_postfix_expression` as a value, against the grid's cells before the call. */
  function ShuntingYard(tokens: seq<Token>, read: Reader): Result<seq<PostfixItem>>
  {
    var st :- ShuntPrefix(tokens, read);
    Ok(st.output + Flush(st.stack))
  }

  /** Once the conversion fails on a prefix, it fails with the same error on the whole list. */
  lemma {:induction false} ShuntPrefixErr(tokens: seq<Token>, i: nat, read: Reader)
    requires i <= |tokens| && ShuntPrefix(tokens[..i], read).Err?
    ensures ShuntPrefix(tokens, read) == ShuntPrefix(tokens[..i], read)
    decreases |tokens| - i
  {
    if i < |tokens| {
      var longer := tokens[..i + 1];
      assert longer[..i] == tokens[..i];
      ShuntPrefixErr(tokens, i + 1, read);
    } else {
      assert tokens[..i] == tokens;
    }
  }

  /** The conversion reads one more token. */
  lemma ShuntPrefixStep(tokens: seq<Token>, k: nat, read: Reader)
    requires k < |tokens| && ShuntPrefix(tokens[..k], read).Ok?
    ensures ShuntPrefix(tokens[..k + 1], read) == ShuntStep(ShuntPrefix(tokens[..k], read).value, tokens[k], read)
  {
    assert tokens[..k + 1][..k] == tokens[..k];
  }

  /** The grid during the conversion: it only grew since `cells0`, with default cells. */
  ghost predicate GrewFrom(sheet: Grid.Spreadsheet, cells0: map<Coord, Grid.Cell>)
    reads sheet
  {
    sheet.Valid()
    && (forall k :: k in cells0 ==> k in sheet.cells && sheet.cells[k] == cells0[k])
    && (forall k :: k in sheet.cells && k !in cells0 ==> sheet.cells[k].content == DefaultContent)
  }

  /**
   * A cell token in the conversion loop: a cell outside the grid is first
   * created by `expand`; the item read is the one the cells before the
   * conversion give.
   */
  method ReadCell(text: string, sheet: Grid.Spreadsheet, ghost cells0: map<Coord, Grid.Cell>)
    returns (r: Result<PostfixItem>)
    requires GrewFrom(sheet, cells0)
    modifies sheet
    ensures GrewFrom(sheet, cells0)
    ensures r == CellItem(text, cells0)
  {
    var c := FromText(text);
    if c.Err? {
      return Err(c.error);
    }
    var key := c.value;
    if key !in sheet.cells {
      sheet.Expand(key.col, key.row);
    }
    if key !in sheet.cells {
      return Err(KeyNotFound);
    }
    var v := sheet.cells[key].GetValue();
    if v.Err? {
      return Err(v.error);
    }
    return Ok(ItemOf(v.value));
  }

  /** The popping loop before an operator is pushed. */
  method PopBefore(stack: seq<string>, output: seq<PostfixItem>, op: string) returns (r: Result<ShuntState>)
    ensures r == PopOperators(ShuntState(stack, output), op)
  {
    var stack, output := stack, output;
    ghost var st := ShuntState(stack, output);
    while |stack| > 0 && Precedence(Top(stack)).Some?
      invariant PopOperators(ShuntState(stack, output), op) == PopOperators(st, op)
      decreases |stack|
    {
      var p := Precedence(op);
      if p.None? {
        return Err(KeyNotFound);
      }
      if Precedence(Top(stack)).value < p.value {
        return Ok(ShuntState(stack, output));
      }
      output := output + [Symbol(Top(stack))];
      stack := stack[..|stack| - 1];
    }
    return Ok(ShuntState(stack, output));
  }

  /** The popping loop at `)`. */
  method PopUntilOpen(stack: seq<string>, output: seq<PostfixItem>) returns (r: Result<ShuntState>)
    ensures r == CloseParenthesis(ShuntState(stack, output))
  {
    var stack, output := stack, output;
    ghost var st := ShuntState(stack, output);
    while |stack| > 0 && Top(stack) != "("
      invariant CloseParenthesis(ShuntState(stack, output)) == CloseParenthesis(st)
      decreases |stack|
    {
      if Top(stack) == "" {
        return Err(IndexOutOfRange);
      }
      output := output + [Symbol([Top(stack)[0]])];
      stack := stack[..|stack| - 1];
    }
    if |stack| == 0 {
      return Err(MalformedExpression);
    }
    return Ok(ShuntState(stack[..|stack| - 1], output));
  }

  /** The final loop: the stack goes to the output, top first. */
  method FlushStack(stack: seq<string>, output: seq<PostfixItem>) returns (r: seq<PostfixItem>)
    ensures r == output + Flush(stack)
  {
    var rest, out := stack, output;
    while |rest| > 0
      invariant out + Flush(rest) == output + Flush(stack)
      decreases |rest|
    {
      assert out + Flush(rest) == (out + [Symbol(Top(rest))]) + Flush(rest[..|rest| - 1]);
      out := out + [Symbol(Top(rest))];
      rest := rest[..|rest| - 1];
    }
    return out;
  }

  /** The body of the conversion loop: one token moves the state on, as `ShuntStep` says. */
  method ConvertToken(t: Token, stack: seq<string>, output: seq<PostfixItem>, sheet: Grid.Spreadsheet,
                      ghost cells0: map<Coord, Grid.Cell>)
    returns (next: Result<ShuntState>)
    requires GrewFrom(sheet, cells0)
    modifies sheet
    ensures GrewFrom(sheet, cells0)
    ensures next == ShuntStep(ShuntState(stack, output), t, CellReader(cells0))
  {
    next := Ok(ShuntState(stack, output));
    if t.kind == Literal {
      var n := LiteralValue(t.text);
      next := if n.Ok? then Ok(ShuntState(stack, output + [Operand(n.value)])) else Err(n.error);
    } else if t.kind == Cell {
      var item := ReadCell(t.text, sheet, cells0);
      next := if item.Ok? then Ok(ShuntState(stack, output + [item.value])) else Err(item.error);
    } else if t.kind == Operator {
      var popped := PopBefore(stack, output, t.text);
      next := if popped.Ok? then Ok(ShuntState(popped.value.stack + [t.text], popped.value.output)) else popped;
    } else if t.kind == Open {
      next := Ok(ShuntState(stack + [t.text], output));
    } else if t.kind == Close {
      next := PopUntilOpen(stack, output);
    }
  }

  /**
   * `generate_postfix_expression`.  The grid grows (by `expand`) when a cell
   * outside it is referenced; cells it had keep their content, and the
   * output is the conversion read against the cells before the call.
   */
  method GeneratePostfixExpression(tokens: seq<Token>, sheet: Grid.Spreadsheet)
    returns (r: Result<seq<PostfixItem>>)
    requires sheet.Valid()
    modifies sheet
    ensures GrewFrom(sheet, old(sheet.cells))
    ensures r == ShuntingYard(tokens, CellReader(old(sheet.cells)))
  {
    ghost var cells0 := sheet.cells;
    ghost var read := CellReader(cells0);
    var stack: seq<string> := [];
    var output: seq<PostfixItem> := [];
    var i := 0;
    while i < |tokens|
      invariant 0 <= i <= |tokens|
      invariant GrewFrom(sheet, cells0)
      invariant ShuntPrefix(tokens[..i], read) == Ok(ShuntState(stack, output))
    {
      var next := ConvertToken(tokens[i], stack, output, sheet, cells0);
      ShuntPrefixStep(tokens, i, read);
      if next.Err? {
        ShuntPrefixErr(tokens, i + 1, read);
        return Err(next.error);
      }
      stack, output := next.value.stack, next.value.output;
      i := i + 1;
    }
    assert tokens[..i] == tokens;
    var out := FlushStack(stack, output);
    return Ok(out);
  }

  // ---------------------------------------------------------------------
  // What the conversion keeps and what it lets through
  // ---------------------------------------------------------------------

  /** Every `(` token reads "(" and every operator token is in the precedence table. */
  predicate SimpleTokens(tokens: seq<Token>)
  {
    forall i :: 0 <= i < |tokens| ==>
      (tokens[i].kind == Open ==> tokens[i].text == "(")
      && (tokens[i].kind == Operator ==> KnownOperator(tokens[i].text))
  }

  /** The operator stack holds only `(` and known operators. */
  predicate StackOk(stack: seq<string>)
  {
    forall j :: 0 <= j < |stack| ==> stack[j] == "(" || KnownOperator(stack[j])
  }

  /** The tokens that each put one item into the conversion: literals, cells, operators. */
  function ItemCount(tokens: seq<Token>): nat
  {
    if tokens == [] then 0
    else ItemCount(tokens[..|tokens| - 1]) + ItemDelta(tokens[|tokens| - 1])
  }

  /** A known operator is one character, and not a parenthesis. */
  lemma KnownOperatorChar(op: string)
    requires KnownOperator(op)
    ensures |op| == 1 && [op[0]] == op && op != "("
  {
  }

  /**
   * At `)` over a stack of `(` and known operators: it fails exactly when no
   * `(` is left; otherwise the operators above the nearest `(` go to the
   * output, top first, and that `(` is dropped.
   */
  lemma CloseParenthesisShape(st: ShuntState)
    requires StackOk(st.stack)
    ensures CloseParenthesis(st).Err? <==> "(" !in st.stack
    ensures CloseParenthesis(st).Ok? ==>
              var r := CloseParenthesis(st).value;
              |r.stack| < |st.stack| && r.stack == st.stack[..|r.stack|]
              && st.stack[|r.stack|] == "("
              && (forall j :: |r.stack| < j < |st.stack| ==> KnownOperator(st.stack[j]))
              && r.output == st.output + Flush(st.stack[|r.stack| + 1..])
  {
    CloseParenthesisFails(st);
    if CloseParenthesis(st).Ok? {
      CloseParenthesisSplit(st, CloseParenthesis(st).value);
    }
  }

  /** Over a stack of operators and `(`, the `)` fails exactly when no `(` is on the stack. */
  lemma {:induction false} CloseParenthesisFails(st: ShuntState)
    requires StackOk(st.stack)
    ensures CloseParenthesis(st).Err? <==> "(" !in st.stack
    decreases |st.stack|
  {
    if |st.stack| > 0 && Top(st.stack) != "(" {
      var top := Top(st.stack);
      var rest := st.stack[..|st.stack| - 1];
      KnownOperatorChar(top);
      var next := ShuntState(rest, st.output + [Symbol(top)]);
      assert CloseParenthesis(st) == CloseParenthesis(next);
      assert StackOk(rest);
      CloseParenthesisFails(next);
      InBelowTop(st.stack, "(");
    }
  }

  /** When the `)` succeeds, it pops the operators above the nearest `(` to the output, top first. */
  lemma {:induction false} CloseParenthesisSplit(st: ShuntState, r: ShuntState)
    requires StackOk(st.stack) && CloseParenthesis(st) == Ok(r)
    ensures |r.stack| < |st.stack| && r.stack == st.stack[..|r.stack|]
            && st.stack[|r.stack|] == "("
            && (forall j :: |r.stack| < j < |st.stack| ==> KnownOperator(st.stack[j]))
            && r.output == st.output + Flush(st.stack[|r.stack| + 1..])
    decreases |st.stack|
  {
    if Top(st.stack) == "(" {
      assert st.stack[|st.stack|..] == [];
    } else {
      var top := Top(st.stack);
      var rest := st.stack[..|st.stack| - 1];
      KnownOperatorChar(top);
      var next := ShuntState(rest, st.output + [Symbol(top)]);
      assert CloseParenthesis(next) == Ok(r);
      assert StackOk(rest);
      CloseParenthesisSplit(next, r);
      CloseShapeStep(st, r);
    }
  }

  /** A value is in a non-empty stack iff it is its top or in the stack below it. */
  lemma InBelowTop(stack: seq<string>, x: string)
    requires |stack| > 0
    ensures x in stack <==> x == Top(stack) || x in stack[..|stack| - 1]
  {
    assert stack == stack[..|stack| - 1] + [Top(stack)];
  }

  /** The shape of `CloseParenthesisShape` carries over from the stack below the top operator. */
  lemma CloseShapeStep(st: ShuntState, r: ShuntState)
    requires |st.stack| > 0 && KnownOperator(Top(st.stack))
    requires var rest := st.stack[..|st.stack| - 1];
             |r.stack| < |rest| && r.stack == rest[..|r.stack|]
             && rest[|r.stack|] == "("
             && (forall j :: |r.stack| < j < |rest| ==> KnownOperator(rest[j]))
             && r.output == st.output + [Symbol(Top(st.stack))] + Flush(rest[|r.stack| + 1..])
    ensures |r.stack| < |st.stack| && r.stack == st.stack[..|r.stack|]
            && st.stack[|r.stack|] == "("
            && (forall j :: |r.stack| < j < |st.stack| ==> KnownOperator(st.stack[j]))
            && r.output == st.output + Flush(st.stack[|r.stack| + 1..])
  {
    PopSplit(st.stack, |r.stack|, |r.stack| + 1);
  }

  /** No cell holds the text "(", which would be read into the output as a `(`. */
  predicate NoOpenText(cells: map<Coord, Grid.Cell>)
  {
    forall k :: k in cells ==> cells[k].content != Text("(")
  }

  /** No cell token is read as the item `(`. */
  ghost predicate NoOpenItem(read: Reader)
  {
    forall text :: read(text).Ok? ==> read(text).value != Symbol("(")
  }

  /** Over cells none of which holds the text "(", no cell token reads as `(`. */
  lemma CellReaderNoOpen(cells: map<Coord, Grid.Cell>)
    requires NoOpenText(cells)
    ensures NoOpenItem(CellReader(cells))
  {
    forall text | CellItem(text, cells).Ok?
      ensures CellItem(text, cells).value != Symbol("(")
    {
      var c := FromText(text).value;
      if c in cells {
        assert cells[c].content != Text("(");
      }
    }
  }

  /** Whether a token puts one entry into the conversion. */
  function ItemDelta(t: Token): nat
  {
    if t.kind in {Literal, Cell, Operator} then 1 else 0
  }

  /** The shape facts one step keeps, from state `st` to state `r`. */
  ghost predicate StepKeeps(st: ShuntState, r: ShuntState, t: Token, read: Reader)
  {
    StackOk(r.stack)
    && multiset(r.stack)["("] == multiset(st.stack)["("] + Delta(t)
    && (Symbol("(") !in st.output && NoOpenItem(read) ==> Symbol("(") !in r.output)
    && |r.output| + |r.stack| == |st.output| + |st.stack| + ItemDelta(t) + Delta(t)
  }

  /** One simple token: the `(` count moves with the token's parenthesis count. */
  lemma ShuntStepShape(st: ShuntState, t: Token, read: Reader)
    requires StackOk(st.stack)
    requires t.kind == Open ==> t.text == "("
    requires t.kind == Operator ==> KnownOperator(t.text)
    ensures ShuntStep(st, t, read).Ok? ==> StepKeeps(st, ShuntStep(st, t, read).value, t, read)
  {
    if ShuntStep(st, t, read).Ok? {
      if t.kind == Cell {
        CellStepShape(st, t, read);
      } else if t.kind == Operator {
        OperatorStepShape(st, t, read, ShuntStep(st, t, read).value);
      } else if t.kind == Close {
        CloseStepShape(st, t, read, CloseParenthesis(st).value);
      }
    }
  }

  lemma CellStepShape(st: ShuntState, t: Token, read: Reader)
    requires StackOk(st.stack) && t.kind == Cell && ShuntStep(st, t, read).Ok?
    ensures StepKeeps(st, ShuntStep(st, t, read).value, t, read)
  {
    if NoOpenItem(read) {
      assert read(t.text).value != Symbol("(");
    }
  }

  lemma OperatorStepShape(st: ShuntState, t: Token, read: Reader, r: ShuntState)
    requires StackOk(st.stack) && t.kind == Operator && KnownOperator(t.text)
    requires ShuntStep(st, t, read) == Ok(r)
    ensures StepKeeps(st, r, t, read)
  {
    PopOperatorsShape(st, t.text);
    var p := PopOperators(st, t.text).value;
    assert r == ShuntState(p.stack + [t.text], p.output);
    PushAfterPop(st, p, t.text);
  }

  /** Pushing a known operator after popping keeps the stack simple and the `(` count. */
  lemma PushAfterPop(st: ShuntState, p: ShuntState, op: string)
    requires StackOk(st.stack) && KnownOperator(op)
    requires |p.stack| <= |st.stack| && p.stack == st.stack[..|p.stack|]
    requires p.output == st.output + Flush(st.stack[|p.stack|..])
    requires forall j :: |p.stack| <= j < |st.stack| ==> KnownOperator(st.stack[j])
    ensures StackOk(p.stack + [op])
    ensures multiset(p.stack + [op])["("] == multiset(st.stack)["("]
    ensures Symbol("(") !in st.output ==> Symbol("(") !in p.output
    ensures |p.output| + |p.stack| + 1 == |st.output| + |st.stack| + 1
  {
    var popped := st.stack[|p.stack|..];
    assert st.stack == p.stack + popped;
    NoParenthesis(popped);
    KnownOperatorChar(op);
    assert StackOk(p.stack) by {
      StackOkPrefix(st.stack, |p.stack|);
    }
    assert multiset(st.stack)["("] == multiset(p.stack)["("] + multiset(popped)["("];
    assert multiset(p.stack + [op])["("] == multiset(p.stack)["("] + multiset([op])["("];
  }

  lemma CloseStepShape(st: ShuntState, t: Token, read: Reader, r: ShuntState)
    requires StackOk(st.stack) && t.kind == Close && CloseParenthesis(st) == Ok(r)
    ensures StepKeeps(st, r, t, read)
  {
    var n := |r.stack|;
    CloseParenthesisShape(st);
    assert r.stack == st.stack[..n] && r.output == st.output + Flush(st.stack[n + 1..]);
    CloseSplit(st.stack, n);
    assert |r.output| == |st.output| + |st.stack| - n - 1;
    assert Delta(t) == -1 && ItemDelta(t) == 0;
  }

  /** The stack at `)`: below the nearest `(`, that `(`, and operators above it. */
  lemma CloseSplit(stack: seq<string>, n: nat)
    requires StackOk(stack) && n < |stack| && stack[n] == "("
    requires forall j :: n < j < |stack| ==> KnownOperator(stack[j])
    ensures StackOk(stack[..n])
    ensures multiset(stack)["("] == multiset(stack[..n])["("] + 1
    ensures Symbol("(") !in Flush(stack[n + 1..])
  {
    var above := stack[n + 1..];
    assert stack == stack[..n] + [stack[n]] + above;
    NoParenthesis(above);
    StackOkPrefix(stack, n);
  }

  lemma StackOkPrefix(stack: seq<string>, n: nat)
    requires StackOk(stack) && n <= |stack|
    ensures StackOk(stack[..n])
  {
  }

  /**
   * The state after a prefix of simple tokens: the stack holds as many `(`
   * as the prefix has unclosed, the output none; together they hold one
   * entry per literal, cell and operator, plus the unclosed `(`.
   */
  lemma {:induction false} ShuntPrefixShape(tokens: seq<Token>, read: Reader)
    requires SimpleTokens(tokens)
    ensures ShuntPrefix(tokens, read).Ok? ==>
              var st := ShuntPrefix(tokens, read).value;
              StackOk(st.stack)
              && multiset(st.stack)["("] == Balance(tokens)
              && (NoOpenItem(read) ==> Symbol("(") !in st.output)
              && |st.output| + |st.stack| == ItemCount(tokens) + Balance(tokens)
  {
    if tokens != [] && ShuntPrefix(tokens, read).Ok? {
      var init := tokens[..|tokens| - 1];
      var t := tokens[|tokens| - 1];
      assert SimpleTokens(init);
      ShuntPrefixShape(init, read);
      ShuntStepShape(ShuntPrefix(init, read).value, t, read);
    }
  }

  lemma NoParenthesis(ops: seq<string>)
    requires forall j :: 0 <= j < |ops| ==> KnownOperator(ops[j])
    ensures multiset(ops)["("] == 0 && Symbol("(") !in Flush(ops)
  {
    forall j | 0 <= j < |ops| ensures ops[j] != "(" {
      KnownOperatorChar(ops[j]);
    }
  }

  /**
   * A conversion of simple tokens that succeeds never closed a parenthesis
   * it had not opened, and leaves one `(` in the output for each one still
   * open at the end: the final emptying of the stack does not reject them.
   * (A cell holding the text "(" adds one more.)
   */
  lemma ShuntingYardParentheses(tokens: seq<Token>, read: Reader)
    requires SimpleTokens(tokens)
    ensures ShuntingYard(tokens, read).Ok? ==>
              (forall k :: 0 <= k <= |tokens| ==> Balance(tokens[..k]) >= 0)
              && (NoOpenItem(read) ==>
                    multiset(ShuntingYard(tokens, read).value)[Symbol("(")] == Balance(tokens))
              && |ShuntingYard(tokens, read).value| == ItemCount(tokens) + Balance(tokens)
  {
    if ShuntingYard(tokens, read).Ok? {
      var st := ShuntPrefix(tokens, read).value;
      ShuntPrefixShape(tokens, read);
      FlushCount(st.stack);
      forall k | 0 <= k <= |tokens| ensures Balance(tokens[..k]) >= 0 {
        if ShuntPrefix(tokens[..k], read).Err? {
          ShuntPrefixErr(tokens, k, read);
        }
        assert SimpleTokens(tokens[..k]);
        ShuntPrefixShape(tokens[..k], read);
      }
    }
  }

  lemma {:induction false} FlushCount(stack: seq<string>)
    ensures multiset(Flush(stack))[Symbol("(")] == multiset(stack)["("]
    decreases |stack|
  {
    if stack != [] {
      var rest := stack[..|stack| - 1];
      assert stack == rest + [Top(stack)];
      FlushCount(rest);
    }
  }

  /** `1)+(1` passes the parenthesis count but not the conversion. */
  lemma SwappedParenthesesRejected(read: Reader)
    ensures WellFormed(SwappedParentheses)
    ensures ShuntingYard(SwappedParentheses, read).Err?
  {
    NetCountOnly();
    assert SimpleTokens(SwappedParentheses);
    ShuntingYardParentheses(SwappedParentheses, read);
  }

  // ---------------------------------------------------------------------
  // Worked example
  // ---------------------------------------------------------------------

  /** `tokens` is `x lo y hi z`: three literals joined by two known operators. */
  predicate TwoOperators(tokens: seq<Token>, x: Token, lo: Token, y: Token, hi: Token, z: Token)
  {
    tokens == [x, lo, y, hi, z]
    && x.kind == Literal && y.kind == Literal && z.kind == Literal
    && LiteralValue(x.text).Ok? && LiteralValue(y.text).Ok? && LiteralValue(z.text).Ok?
    && lo.kind == Operator && hi.kind == Operator && KnownOperator(lo.text) && KnownOperator(hi.text)
  }

  function LiteralItem(t: Token): PostfixItem
    requires LiteralValue(t.text).Ok?
  {
    Operand(LiteralValue(t.text).value)
  }

  /**
   * `x lo y hi z` over literals: when `hi` binds more tightly than `lo` it is
   * applied first (`x y z hi lo`); otherwise the operators apply left to
   * right (`x y lo z hi`).
   */
  lemma OperatorOrder(tokens: seq<Token>, x: Token, lo: Token, y: Token, hi: Token, z: Token,
                      read: Reader)
    requires TwoOperators(tokens, x, lo, y, hi, z)
    ensures ShuntingYard(tokens, read)
            == if Precedence(lo.text).value < Precedence(hi.text).value
               then Ok([LiteralItem(x), LiteralItem(y), LiteralItem(z), Symbol(hi.text), Symbol(lo.text)])
               else Ok([LiteralItem(x), LiteralItem(y), Symbol(lo.text), LiteralItem(z), Symbol(hi.text)])
  {
    FirstThree(tokens, x, lo, y, hi, z, read);
    var out := [LiteralItem(x), LiteralItem(y)];
    if Precedence(lo.text).value < Precedence(hi.text).value {
      TighterSecond(tokens, lo.text, hi, z, out, read);
      assert out + [LiteralItem(z), Symbol(hi.text), Symbol(lo.text)]
          == [LiteralItem(x), LiteralItem(y), LiteralItem(z), Symbol(hi.text), Symbol(lo.text)];
    } else {
      LooserSecond(tokens, lo.text, hi, z, out, read);
      assert out + [Symbol(lo.text), LiteralItem(z), Symbol(hi.text)]
          == [LiteralItem(x), LiteralItem(y), Symbol(lo.text), LiteralItem(z), Symbol(hi.text)];
    }
  }

  lemma FirstThree(tokens: seq<Token>, x: Token, lo: Token, y: Token, hi: Token, z: Token,
                   read: Reader)
    requires TwoOperators(tokens, x, lo, y, hi, z)
    ensures ShuntPrefix(tokens[..3], read) == Ok(ShuntState([lo.text], [LiteralItem(x), LiteralItem(y)]))
  {
    var vx, vy := LiteralItem(x), LiteralItem(y);
    assert tokens[..0] == [];
    var s0 := ShuntState([], []);
    var s1 := ShuntState([], [vx]);
    ShuntLiteral(s0, x, read, LiteralValue(x.text).value);
    assert ShuntState(s0.stack, s0.output + [vx]) == s1;
    ExtendPrefix(tokens, 0, read, s0, s1);
    var s2 := ShuntState([lo.text], [vx]);
    assert PopOperators(s1, lo.text) == Ok(s1);
    ShuntOperator(s1, lo, read, s1);
    assert ShuntState(s1.stack + [lo.text], s1.output) == s2;
    ExtendPrefix(tokens, 1, read, s1, s2);
    var s3 := ShuntState([lo.text], [vx, vy]);
    ShuntLiteral(s2, y, read, LiteralValue(y.text).value);
    assert ShuntState(s2.stack, s2.output + [vy]) == s3;
    ExtendPrefix(tokens, 2, read, s2, s3);
    assert ShuntPrefix(tokens[..3], read) == Ok(s3);
  }

  /** After `x lo y`, a `hi` that binds more tightly waits on the stack above `lo`. */
  lemma TighterSecond(tokens: seq<Token>, lo: string, hi: Token, z: Token, out: seq<PostfixItem>,
                      read: Reader)
    requires |tokens| == 5 && tokens[3] == hi && tokens[4] == z && hi.kind == Operator
    requires z.kind == Literal && LiteralValue(z.text).Ok?
    requires KnownOperator(lo) && KnownOperator(hi.text) && Precedence(lo).value < Precedence(hi.text).value
    requires ShuntPrefix(tokens[..3], read) == Ok(ShuntState([lo], out))
    ensures ShuntingYard(tokens, read) == Ok(out + [LiteralItem(z), Symbol(hi.text), Symbol(lo)])
  {
    var s3 := ShuntState([lo], out);
    var s4 := ShuntState([lo, hi.text], out);
    assert ShuntPrefix(tokens[..4], read) == Ok(s4) by {
      assert Top(s3.stack) == lo;
      assert PopOperators(s3, hi.text) == Ok(s3);
      SecondOperator(tokens, hi, read, s3, s3);
      assert ShuntState(s3.stack + [hi.text], s3.output) == s4;
    }
    LastLiteral(tokens, z, read, s4);
    FlushPair(lo, hi.text);
    AppendThree(out, LiteralItem(z), Symbol(hi.text), Symbol(lo));
  }

  /** After `x lo y`, a `hi` that binds no more tightly sends `lo` to the output first. */
  lemma LooserSecond(tokens: seq<Token>, lo: string, hi: Token, z: Token, out: seq<PostfixItem>,
                     read: Reader)
    requires |tokens| == 5 && tokens[3] == hi && tokens[4] == z && hi.kind == Operator
    requires z.kind == Literal && LiteralValue(z.text).Ok?
    requires KnownOperator(lo) && KnownOperator(hi.text) && Precedence(lo).value >= Precedence(hi.text).value
    requires ShuntPrefix(tokens[..3], read) == Ok(ShuntState([lo], out))
    ensures ShuntingYard(tokens, read) == Ok(out + [Symbol(lo), LiteralItem(z), Symbol(hi.text)])
  {
    var s3 := ShuntState([lo], out);
    var popped := ShuntState([], out + [Symbol(lo)]);
    var s4 := ShuntState([hi.text], out + [Symbol(lo)]);
    PopLooser(lo, hi.text, out);
    assert ShuntPrefix(tokens[..4], read) == Ok(s4) by {
      SecondOperator(tokens, hi, read, s3, popped);
      assert ShuntState(popped.stack + [hi.text], popped.output) == s4;
    }
    LastLiteral(tokens, z, read, s4);
    FlushOne(hi.text);
    AppendThree(out, Symbol(lo), LiteralItem(z), Symbol(hi.text));
  }

  lemma AppendThree(out: seq<PostfixItem>, a: PostfixItem, b: PostfixItem, c: PostfixItem)
    ensures out + [a] + [b] + [c] == out + [a, b, c]
    ensures out + [a, b] + [c] == out + [a, b, c]
    ensures out + [a] + [b, c] == out + [a, b, c]
  {
  }

  /** An operator that binds no more tightly than the one on the stack pops it to the output. */
  lemma PopLooser(lo: string, hi: string, output: seq<PostfixItem>)
    requires KnownOperator(lo) && KnownOperator(hi)
    requires Precedence(lo).value >= Precedence(hi).value
    ensures PopOperators(ShuntState([lo], output), hi) == Ok(ShuntState([], output + [Symbol(lo)]))
  {
    var s3 := ShuntState([lo], output);
    var popped := ShuntState([], output + [Symbol(lo)]);
    assert Top(s3.stack) == lo && s3.stack[..0] == [];
    PopOnce(s3, hi);
    assert PopOperators(popped, hi) == Ok(popped);
  }

  /** The second operator of `x lo y hi z` pops what it must from the stack and is pushed. */
  lemma SecondOperator(tokens: seq<Token>, hi: Token, read: Reader, s3: ShuntState, popped: ShuntState)
    requires |tokens| == 5 && tokens[3] == hi && hi.kind == Operator
    requires ShuntPrefix(tokens[..3], read) == Ok(s3)
    requires PopOperators(s3, hi.text) == Ok(popped)
    ensures ShuntPrefix(tokens[..4], read) == Ok(ShuntState(popped.stack + [hi.text], popped.output))
  {
    ShuntOperator(s3, hi, read, popped);
    ExtendPrefix(tokens, 3, read, s3, ShuntState(popped.stack + [hi.text], popped.output));
  }

  /** The last token of five is a literal: it goes to the output before the stack is emptied. */
  lemma LastLiteral(tokens: seq<Token>, z: Token, read: Reader, s4: ShuntState)
    requires |tokens| == 5 && tokens[4] == z && z.kind == Literal && LiteralValue(z.text).Ok?
    requires ShuntPrefix(tokens[..4], read) == Ok(s4)
    ensures ShuntingYard(tokens, read) == Ok(s4.output + [LiteralItem(z)] + Flush(s4.stack))
  {
    var s5 := ShuntState(s4.stack, s4.output + [LiteralItem(z)]);
    ShuntLiteral(s4, z, read, LiteralValue(z.text).value);
    ExtendPrefix(tokens, 4, read, s4, s5);
    assert tokens[..5] == tokens;
    YardFromPrefix(tokens, read, s5);
  }

  /** `1+2*3` converts to `1 2 3 * +`, whose value is 7. */
  lemma PrecedenceExample(tokens: seq<Token>, read: Reader)
    requires tokens == [Token("1", Literal), Token("+", Operator), Token("2", Literal),
                        Token("*", Operator), Token("3", Literal)]
    ensures ShuntingYard(tokens, read)
            == Ok([Operand(Float(1.0)), Operand(Float(2.0)), Operand(Float(3.0)), Symbol("*"), Symbol("+")])
    ensures EvalPostfix(ShuntingYard(tokens, read).value) == Ok(Float(7.0))
  {
    SmallLiterals();
    assert Precedence("+") == Some(1) && Precedence("*") == Some(2);
    OperatorOrder(tokens, tokens[0], tokens[1], tokens[2], tokens[3], tokens[4], read);
    PrecedenceValue(ShuntingYard(tokens, read).value);
  }

  lemma YardFromPrefix(tokens: seq<Token>, read: Reader, st: ShuntState)
    requires ShuntPrefix(tokens, read) == Ok(st)
    ensures ShuntingYard(tokens, read) == Ok(st.output + Flush(st.stack))
  {
  }

  lemma PopOnce(st: ShuntState, op: string)
    requires |st.stack| > 0 && KnownOperator(Top(st.stack)) && KnownOperator(op)
    requires Precedence(Top(st.stack)).value >= Precedence(op).value
    ensures PopOperators(st, op)
            == PopOperators(ShuntState(st.stack[..|st.stack| - 1], st.output + [Symbol(Top(st.stack))]), op)
  {
  }

  lemma FlushPair(a: string, b: string)
    ensures Flush([a, b]) == [Symbol(b), Symbol(a)]
  {
    assert [a, b][..1] == [a];
    assert [a][..0] == [];
  }

  lemma FlushOne(a: string)
    ensures Flush([a]) == [Symbol(a)]
  {
    assert [a][..0] == [];
  }

  lemma ShuntLiteral(st: ShuntState, t: Token, read: Reader, n: Number)
    requires t.kind == Literal && LiteralValue(t.text) == Ok(n)
    ensures ShuntStep(st, t, read) == Ok(ShuntState(st.stack, st.output + [Operand(n)]))
  {
  }

  lemma ShuntOperator(st: ShuntState, t: Token, read: Reader, p: ShuntState)
    requires t.kind == Operator && PopOperators(st, t.text) == Ok(p)
    ensures ShuntStep(st, t, read) == Ok(ShuntState(p.stack + [t.text], p.output))
  {
  }

  lemma ExtendPrefix(tokens: seq<Token>, k: nat, read: Reader, st: ShuntState, next: ShuntState)
    requires k < |tokens| && ShuntPrefix(tokens[..k], read) == Ok(st)
    requires ShuntStep(st, tokens[k], read) == Ok(next)
    ensures ShuntPrefix(tokens[..k + 1], read) == Ok(next)
  {
    ShuntPrefixStep(tokens, k, read);
  }

  lemma SmallLiterals()
    ensures LiteralValue("1") == Ok(Float(1.0))
    ensures LiteralValue("2") == Ok(Float(2.0))
    ensures LiteralValue("3") == Ok(Float(3.0))
  {
    assert DigitsValue("1") == 1 by { assert "1"[..0] == []; }
    assert DigitsValue("2") == 2 by { assert "2"[..0] == []; }
    assert DigitsValue("3") == 3 by { assert "3"[..0] == []; }
  }

  lemma PrecedenceValue(items: seq<PostfixItem>)
    requires items == [Operand(Float(1.0)), Operand(Float(2.0)), Operand(Float(3.0)), Symbol("*"), Symbol("+")]
    ensures EvalPostfix(items) == Ok(Float(7.0))
  {
    var f1, f6 := Float(1.0), Float(6.0);
    var product := [Operand(Float(2.0)), Operand(Float(3.0)), Symbol("*")];
    ProductValue(product, [f1]);
    OperandPostfix(f1, []);
    assert [] + [f1] == [f1] && [] + [f1, f6] == [f1] + [f6];
    BinaryPostfix([Operand(f1)], product, "+", [], f1, f6);
    assert EvaluateOperation(f1, f6, "+") == Ok(Float(7.0));
    assert [Operand(f1)] + product + [Symbol("+")] == items;
    assert EvalItems(items, []) == Ok([] + [Float(7.0)]);
  }

  /** `2 3 *` pushes 6 onto any stack. */
  lemma ProductValue(product: seq<PostfixItem>, stack: seq<Number>)
    requires product == [Operand(Float(2.0)), Operand(Float(3.0)), Symbol("*")]
    ensures EvalItems(product, stack) == Ok(stack + [Float(6.0)])
  {
    var f2, f3 := Float(2.0), Float(3.0);
    OperandPostfix(f2, stack);
    OperandPostfix(f3, stack + [f2]);
    assert stack + [f2] + [f3] == stack + [f2, f3];
    BinaryPostfix([Operand(f2)], [Operand(f3)], "*", stack, f2, f3);
    assert EvaluateOperation(f2, f3, "*") == Ok(Float(6.0));
    assert [Operand(f2)] + [Operand(f3)] + [Symbol("*")] == product;
  }

  /** A single number is pushed. */
  lemma OperandPostfix(n: Number, stack: seq<Number>)
    ensures EvalItems([Operand(n)], stack) == Ok(stack + [n])
  {
    assert [Operand(n)][1..] == [];
  }
}
