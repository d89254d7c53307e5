/**
 * Option and Result, and the kinds of failure the spreadsheet core can
 * raise.  Each error kind stands for the exception the Python code raises
 * at that point; the model returns it instead of throwing.
 */
module Wrappers {

  datatype Option<+T> = None | Some(value: T)

  /** The exceptions of the formula pipeline and the dependency engine. */
  datatype Error =
    | MalformedFormula      // the tokenizer found no token class for the rest of the text
    | InvalidFormula        // grammar or parenthesis check failed
    | UnknownFunction       // a function name without an operator (KeyError on the table)
    | MalformedExpression   // a `)` with no `(` on the stack in the conversion to postfix, or too few operands or leftovers in its evaluation
    | BadOperator           // postfix evaluation met a symbol that is no operator
    | DivisionByZero        // Python's ZeroDivisionError
    | PowerNotModelled      // `^` with a non-integral exponent (see README)
    | UnevaluatedFormula    // a formula's value read before it was ever set
    | CircularDependency    // the edit would create a cycle
    | IndexOutOfRange       // Python's IndexError
    | KeyNotFound           // Python's KeyError on the cell map
    | MalformedCoordinates  // ValueError while reading a coordinate or a range

  datatype Result<+T> = Ok(value: T) | Err(error: Error) {
    predicate IsFailure() { Err? }

    function PropagateFailure<U>(): Result<U>
      requires Err?
    {
      Err(error)
    }

    function Extract(): T
      requires Ok?
    {
      value
    }
  }
}
