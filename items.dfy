/** Stack items, the slots of a stack's backing array, and the ways an
    interpretation can fail. */
module Items {
  import opened Numbers

  /** A StackItem: a scaled number or the text of a command string. */
  datatype StackItem =
    | Num(n: ScaledNumber)
    | Cmd(text: string)

  /** The item NewItem creates: the number 0 at scale 0. */
  const ZeroItem: StackItem := Num(Zero)

  /** One entry of a stack's backing array, a Go *StackItem: an item, or
      nil where nothing has been stored yet. */
  datatype Slot = Nil | Some(item: StackItem)

  /** Every reason an interpretation stops with an error. Besides the errors
      the interpreter returns, the Go runtime panics on a nil
      item, a missing register and a zero divisor; those are errors here too. */
  datatype Error =
    | ParseFailure          // strconv.ParseInt rejected a numeric literal
    | ExpectedOpenBracket   // ReadCommand did not start at '['
    | UnterminatedCommand   // no ']' before the end of the input
    | EndOfInput            // the register name after s, S, l, L, <, > or = is missing
    | TypeMismatch(op: char) // op met a command where it needs a number, or the reverse
    | NilItem               // a nil slot was dereferenced
    | MissingRegister(name: char) // <, > or = executed a register that does not exist
    | DivisionByZero        // integer / or % by zero
    | IndexOutOfRange       // a stack slot past the backing array was written
    | OutOfFuel             // the bound on nested executions was reached

  datatype Result<T> = Ok(value: T) | Err(error: Error)
}
