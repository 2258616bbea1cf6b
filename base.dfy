/** Result wrappers, the exceptions the library raises, and the module-level reader/printer flags. */
module Base {

  datatype Option<T> = None | Some(value: T)

  /** Why the parser gave up; the text of the Python message is not modelled, only its kind. */
  datatype SyntaxReason =
    | UnexpectedToken(token: string)   // "Unexpected token ')'" or "Unexpected token '.'"
    | UnexpectedEOF                    // end of input inside a list
    | CloseExpected                    // "')' is expected" after a dotted tail
    | InvalidComplex                   // "#C" not followed by "(" real real ")"
    | InvalidArray                     // an array prefix not followed by "("

  /** The Python exceptions of the core, with the line/column the reader reports. */
  datatype Error =
    | SyntaxError(reason: SyntaxReason, line: int, col: int)
    | EOFError(line: int, col: int)
    | ZeroDivisionError
    | OverflowError
    | ValueError
    | IndexError
    | TypeError
      /** An attribute the object does not have, such as `car` on an atom. */
    | AttributeError
      /** A code point Python accepts in a str but a Dafny `char` cannot hold (a lone surrogate). */
    | Unrepresentable

  datatype Result<T> = Ok(value: T) | Err(error: Error)
  {
    predicate IsFailure() { Err? }

    function PropagateFailure<U>(): Result<U>
      requires Err?
    {
      Err(error)
    }

    function Extract(): T
      requires Ok?
    {
      value
    }
  }

  /** The module-level switches `sxprlib_enable*` and `sxprlib_ignoreCase`. */
  datatype Config = Config(
    lineComment: bool,
    blockComment: bool,
    escape: bool,
    quote: bool,
    funcRef: bool,
    bin: bool,
    oct: bool,
    hex: bool,
    radix: bool,
    complex: bool,
    arrays: bool,
    frac: bool,
    chars: bool,
    ignoreCase: bool)

  /** The values the library ships with: only line comments are on. */
  const Defaults: Config := Config(true, false, false, false, false, false, false, false,
                                   false, false, false, false, false, false)
}
