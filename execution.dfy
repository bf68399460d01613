/** Interp as a function: one activation reads its input rune by rune and
    dispatches on it; `x`, `<`, `>` and `=` start a nested activation over a
    command's text on the same machine. The nesting is bounded by a fuel
    argument, since a program such as `[lax]sa lax` nests forever. */
module Execution {
  import opened Numbers
  import opened Items
  import opened Stacks
  import opened Lexer
  import opened Semantics

  /** The signal, the machine and the index of the next rune after a step
      or an activation. */
  datatype Outcome = Outcome(signal: Signal, m: MachineVal, pos: nat)

  /** The runes Interp hands to ReadNumber: Unicode decimal digits, '_'
      and '.'. */
  predicate StartsNumber(c: char)
  {
    IsUnicodeDigit(c) || c == '_' || c == '.'
  }

  predicate IsRegisterOp(c: char)
  {
    c == 's' || c == 'S' || c == 'l' || c == 'L'
  }

  predicate IsConditional(c: char)
  {
    c == '<' || c == '>' || c == '='
  }

  /** `s`, `S`, `l` or `L` on the named register. */
  function RegisterOp(m: MachineVal, c: char, name: char): (r: MachineVal)
    requires MachineOk(m) && IsRegisterOp(c)
    ensures MachineOk(r)
  {
    if c == 's' then Store(m, name)
    else if c == 'S' then StorePush(m, name)
    else if c == 'l' then Load(m, name)
    else LoadPop(m, name)
  }

  /** How the caller goes on after a nested activation: its error is passed
      up; its end, by running out of input or by `q`, lets the caller continue. */
  function Resume(s: Signal): (r: Signal)
    ensures r != Leave
    ensures r.Fail? <==> s.Fail?
  {
    if s.Fail? then s else Continue
  }

  /** One activation of Interp from the rune at pos: it stops at the end of
      the input, or at the first step that does not continue. */
  function Run(m: MachineVal, input: string, pos: nat, fuel: nat): (r: Outcome)
    requires MachineOk(m) && pos <= |input|
    ensures MachineOk(r.m) && pos <= r.pos <= |input|
    ensures r.signal == Continue ==> r.pos == |input|
    decreases fuel, |input| - pos, 2
  {
    if pos == |input| then Outcome(Continue, m, pos)
    else
      var s := Step(m, input, pos, fuel);
      if s.signal == Continue then Run(s.m, input, s.pos, fuel) else s
  }

  /** A nested call of Interp over a command's text. */
  function Nested(m: MachineVal, text: string, fuel: nat): (e: Effect)
    requires MachineOk(m)
    ensures MachineOk(e.m) && e.signal != Leave
    decreases fuel, 0, 0
  {
    if fuel == 0 then Effect(Fail(OutOfFuel), m)
    else
      var o := Run(m, text, 0, fuel - 1);
      Effect(Resume(o.signal), o.m)
  }

  /** One pass of Interp's loop on the rune at pos. */
  function Step(m: MachineVal, input: string, pos: nat, fuel: nat): (r: Outcome)
    requires MachineOk(m) && pos < |input|
    ensures MachineOk(r.m) && pos < r.pos <= |input|
    decreases fuel, |input| - pos, 1
  {
    var c := input[pos];
    if StartsNumber(c) then
      match LexNumber(input, pos)
      case Err(err) => Outcome(Fail(err), m, pos + 1)
      case Ok((n, next)) => Outcome(Continue, PushRoot(m, Some(Num(n))), next)
    else if c == '[' then
      match LexCommand(input, pos)
      case Err(err) => Outcome(Fail(err), m, pos + 1)
      case Ok((text, next)) => Outcome(Continue, PushRoot(m, Some(Cmd(text))), next)
    else if IsRegisterOp(c) then
      if pos + 1 == |input| then Outcome(Fail(EndOfInput), m, pos + 1)
      else
        Outcome(Continue, RegisterOp(m, c, input[pos + 1]), pos + 2)
    else if IsConditional(c) then Conditional(m, input, pos, fuel)
    else if c == 'x' then
      var (x, m1) := PopRoot(m);
      match x
      case Nil => Outcome(Fail(NilItem), m1, pos + 1)
      case Some(Num(_)) => Outcome(Fail(TypeMismatch('x')), m1, pos + 1)
      case Some(Cmd(text)) =>
        var e := Nested(m1, text, fuel);
        Outcome(e.signal, e.m, pos + 1)
    else
      var e := SimpleOp(m, c);
      Outcome(e.signal, e.m, pos + 1)
  }

  /** `<`, `>`, `=`: pop two numbers, read the register name, and when the
      test holds run the command on top of that register. A register that
      does not exist is dereferenced as nil, a panic. */
  function Conditional(m: MachineVal, input: string, pos: nat, fuel: nat): (r: Outcome)
    requires MachineOk(m) && pos < |input| && IsConditional(input[pos])
    ensures MachineOk(r.m) && pos < r.pos <= |input|
    decreases fuel, |input| - pos, 0
  {
    var op := input[pos];
    var (operands, m1) := PopOperands(m, op);
    match operands
    case Err(err) => Outcome(Fail(err), m1, pos + 1)
    case Ok((a, b)) =>
      if pos + 1 == |input| then Outcome(Fail(EndOfInput), m1, pos + 1)
      else
        var name := input[pos + 1];
        if !Holds(op, a, b) then Outcome(Continue, m1, pos + 2)
        else if name !in m1.registers then Outcome(Fail(MissingRegister(name)), m1, pos + 2)
        else
          match PeekVal(m1.registers[name])
          case Err(err) => Outcome(Fail(err), m1, pos + 2)
          case Ok(Num(_)) => Outcome(Fail(TypeMismatch(op)), m1, pos + 2)
          case Ok(Cmd(text)) =>
            var e := Nested(m1, text, fuel);
            Outcome(e.signal, e.m, pos + 2)
  }

  /** A whole program, as main runs it: Interp over the input from the
      initial state. */
  function Program(input: string, fuel: nat): (r: Outcome)
    ensures MachineOk(r.m)
  {
    Run(Initial(), input, 0, fuel)
  }
}
