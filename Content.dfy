/**
 * Cell contents: the closed set of variants Numerical, Text and Formula,
 * and `ContentFactory.get`, which picks the variant for an edit's input.
 */
module Content {
  import opened Wrappers
  import opened Strings
  import opened Coordinates

  /**
   * A Python number: an `int` or a `float`.  Floats are modelled by exact
   * reals (no rounding, no infinities, no NaN).
   */
  datatype Number = Int(i: int) | Float(f: real) {
    /** The mathematical value, whatever its Python type. */
    function Real(): real {
      match this
      case Int(i) => i as real
      case Float(f) => f
    }
  }

  /** What `get_value` returns: a number, or the string of a Text cell. */
  datatype Value = NumberValue(number: Number) | TextValue(text: string)

  /**
   * The three variants.  A Formula keeps its text without the leading `=`,
   * a value cache and a dependency cache, both absent (None) until set.
   */
  datatype Content =
    | Numerical(number: Number)
    | Text(text: string)
    | Formula(representation: string, value: Option<Number>, dependencies: Option<seq<Coord>>)
  {
    /** `get_value`: a formula whose value was never set raises. */
    function GetValue(): (r: Result<Value>)
      ensures r.Err? <==> Formula? && value.None?
      ensures r.Err? ==> r.error == UnevaluatedFormula
      ensures Numerical? ==> r == Ok(NumberValue(number))
      ensures Text? ==> r == Ok(TextValue(text))
      ensures Formula? && value.Some? ==> r == Ok(NumberValue(value.value))
    {
      match this
      case Numerical(n) => Ok(NumberValue(n))
      case Text(s) => Ok(TextValue(s))
      case Formula(_, v, _) => if v.Some? then Ok(NumberValue(v.value)) else Err(UnevaluatedFormula)
    }

    /** `get_value_to_dump`: numbers and text verbatim, a formula as "=" and its text. */
    function GetValueToDump(): Value
    {
      match this
      case Numerical(n) => NumberValue(n)
      case Text(s) => TextValue(s)
      case Formula(repr, _, _) => TextValue("=" + repr)
    }

    /** `set_value`, with the argument type each class declares. */
    function SetValue(v: Value): (c: Content)
      requires Text? ==> v.TextValue?
      requires !Text? ==> v.NumberValue?
    {
      match this
      case Numerical(_) => Numerical(v.number)
      case Text(_) => Text(v.text)
      case Formula(repr, _, deps) => Formula(repr, Some(v.number), deps)
    }

    /** `Formula.set_dependencies`. */
    function SetDependencies(deps: seq<Coord>): (c: Content)
      requires Formula?
    {
      Formula(representation, value, Some(deps))
    }
  }

  /** The cell content a cell is created with. */
  const DefaultContent: Content := Numerical(Int(0))

  /**
   * `Formula(repr)`: one leading `=` is dropped; both caches start empty.
   * The text must not be empty (Python indexes its first character).
   */
  function NewFormula(text: string): (c: Content)
    requires |text| > 0
    ensures c.Formula? && c.value.None? && c.dependencies.None?
  {
    Formula(if text[0] == '=' then text[1..] else text, None, None)
  }

  /** A formula made from "=" and some text dumps back to that same text. */
  lemma FormulaDumpRoundTrip(text: string)
    requires |text| > 0 && text[0] == '='
    ensures NewFormula(text).GetValueToDump() == TextValue(text)
  {
    assert "=" + text[1..] == text;
  }

  /** Numbers and text dump as the value they hold. */
  lemma DumpIsValue(c: Content)
    requires c.Numerical? || c.Text?
    ensures c.GetValue() == Ok(c.GetValueToDump())
  {
  }

  /** After `set_value(v)`, `get_value` returns v; the rest of the content is kept. */
  lemma GetAfterSet(c: Content, v: Value)
    requires c.Text? ==> v.TextValue?
    requires !c.Text? ==> v.NumberValue?
    ensures c.SetValue(v).GetValue() == Ok(v)
    ensures c.Formula? ==> c.SetValue(v).Formula?
                           && c.SetValue(v).representation == c.representation
                           && c.SetValue(v).dependencies == c.dependencies
  {
  }

  /** A new formula raises on `get_value` until it is evaluated. */
  lemma NewFormulaUnevaluated(text: string)
    requires |text| > 0
    ensures NewFormula(text).GetValue() == Err(UnevaluatedFormula)
  {
  }

  /** `get_dependencies` returns exactly what was set; the value cache is kept. */
  lemma DependenciesAfterSet(c: Content, deps: seq<Coord>)
    requires c.Formula?
    ensures c.SetDependencies(deps).dependencies == Some(deps)
    ensures c.SetDependencies(deps).GetValue() == c.GetValue()
    ensures c.SetDependencies(deps).representation == c.representation
  {
  }

  /** Input of an edit: a Python number or a string. */
  datatype Input = NumberInput(number: Number) | StringInput(text: string)

  /** `str.isnumeric` on ASCII: non-empty and all digits. */
  predicate IsNumeric(s: string) { |s| > 0 && AllDigits(s) }

  /**
   * `ContentFactory.get`.  `parseFloat` is Python's `float` on a string
   * (None where it raises); the checks run in the source's order.
   */
  function Get(input: Input, parseFloat: string -> Option<real>): (c: Content)
    ensures c.Numerical? <==> (input.NumberInput? || IsNumeric(input.text)
                               || parseFloat(input.text).Some?)
    ensures input.NumberInput? ==> c == Numerical(input.number)
    ensures input.StringInput? && IsNumeric(input.text) ==>
              c == Numerical(Int(DigitsValue(input.text)))
    ensures input.StringInput? && !IsNumeric(input.text) && parseFloat(input.text).Some? ==>
              c == Numerical(Float(parseFloat(input.text).value))
    ensures c.Formula? <==> (input.StringInput? && !c.Numerical?
                             && |input.text| > 0 && input.text[0] == '=')
    ensures c.Formula? ==> c.value.None? && c.dependencies.None?
    ensures c.Text? || c.Formula? ==> c.GetValueToDump() == TextValue(input.text)
  {
    match input
    case NumberInput(n) => Numerical(n)
    case StringInput(s) =>
      if IsNumeric(s) then Numerical(Int(DigitsValue(s)))
      else if parseFloat(s).Some? then Numerical(Float(parseFloat(s).value))
      else if s == "" then Text("")
      else if s[0] == '=' then (FormulaDumpRoundTrip(s); NewFormula(s))
      else Text(s)
  }
}
