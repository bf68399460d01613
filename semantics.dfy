/** The interpreter's state as a value, and what each opcode does to it.
    The Go program keeps this state in globals: RootStack, Registers,
    InterpScale, InterpLevel, OutBase and OutScale; standard output is
    collected in `output`. */
module Semantics {
  import opened Numbers
  import opened Items
  import opened Stacks
  import opened Lexer

  /** One piece of standard output: text, or a number with a non-zero scale
      that `p` and `f` print as a float with "%f". */
  datatype Out = Text(s: string) | Fixed(n: ScaledNumber)

  datatype MachineVal = MachineVal(
    root: StackVal,
    registers: map<char, StackVal>,
    interpScale: int,
    interpLevel: int,
    outBase: int,
    outScale: int,
    output: seq<Out>)

  /** Every stack of the machine is well formed. */
  predicate MachineOk(m: MachineVal)
  {
    WellFormed(m.root) && forall r | r in m.registers :: WellFormed(m.registers[r])
  }

  /** The state main sets up before Interp runs. */
  function Initial(): (m: MachineVal)
    ensures MachineOk(m) && Contents(m.root) == [Some(ZeroItem)]
  {
    NewStackShape();
    MachineVal(NewStackVal(), map[], 0, 0, 10, 0, [])
  }

  /** What an opcode tells the dispatch loop: go on, return from the current
      activation of Interp (q and Q), or return an error. */
  datatype Signal = Continue | Leave | Fail(error: Error)

  /** The signal and the state after an opcode. */
  datatype Effect = Effect(signal: Signal, m: MachineVal)

  // ---------------------------------------------------------------------
  // The root stack

  function PushRoot(m: MachineVal, x: Slot): (r: MachineVal)
    requires MachineOk(m)
    ensures MachineOk(r) && r == m.(root := r.root)
    ensures Contents(r.root) == Contents(m.root) + [x]
  {
    PushOnTop(m.root, x);
    m.(root := PushVal(m.root, x))
  }

  function PopRoot(m: MachineVal): (r: (Slot, MachineVal))
    requires MachineOk(m)
    ensures MachineOk(r.1) && r.1 == m.(root := r.1.root)
    ensures r.0 == m.root.slots[m.root.pointer]
  {
    var (x, root) := PopVal(m.root);
    (x, m.(root := root))
  }

  /** The two operands of a binary opcode, popped top first, checked in the
      order Go evaluates `!a.IsNumber || !b.IsNumber`: a nil slot is
      dereferenced (a panic) before anything else is looked at. */
  function CheckOperands(a: Slot, b: Slot, op: char): (r: Result<(ScaledNumber, ScaledNumber)>)
    ensures r.Ok? <==> a.Some? && a.item.Num? && b.Some? && b.item.Num?
    ensures r.Ok? ==> r.value == (a.item.n, b.item.n)
    ensures a.Some? && a.item.Cmd? ==> r == Err(TypeMismatch(op))
  {
    match (a, b)
    case (Nil, _) => Err(NilItem)
    case (Some(Cmd(_)), _) => Err(TypeMismatch(op))
    case (Some(Num(_)), Nil) => Err(NilItem)
    case (Some(Num(_)), Some(Cmd(_))) => Err(TypeMismatch(op))
    case (Some(Num(x)), Some(Num(y))) => Ok((x, y))
  }

  /** Pops a (the top) and b and checks that both are numbers. */
  function PopOperands(m: MachineVal, op: char): (r: (Result<(ScaledNumber, ScaledNumber)>, MachineVal))
    requires MachineOk(m)
    ensures MachineOk(r.1) && r.1 == m.(root := r.1.root)
  {
    var (a, m1) := PopRoot(m);
    var (b, m2) := PopRoot(m1);
    (CheckOperands(a, b, op), m2)
  }

  // ---------------------------------------------------------------------
  // Arithmetic on scaled numbers, a the top operand and b the second

  /** `+` and `-` work at the larger of the two scales. */
  function SumScale(a: ScaledNumber, b: ScaledNumber): int
  {
    if a.scale > b.scale then a.scale else b.scale
  }

  function Sum(a: ScaledNumber, b: ScaledNumber): ScaledNumber
  {
    var t := SumScale(a, b);
    ScaledNumber(Rescale(a, t).number + Rescale(b, t).number, t)
  }

  /** `-` subtracts the second operand from the top one. */
  function Difference(a: ScaledNumber, b: ScaledNumber): ScaledNumber
  {
    var t := SumScale(a, b);
    ScaledNumber(Rescale(a, t).number - Rescale(b, t).number, t)
  }

  /** `*` and `%` work at IntMin(a.Scale+b.Scale, IntMax(InterpScale, a.Scale, b.Scale)). */
  function ProductScale(a: ScaledNumber, b: ScaledNumber, interpScale: int): int
  {
    MinOf([a.scale + b.scale, MaxOf([interpScale, a.scale, b.scale])])
  }

  function Product(a: ScaledNumber, b: ScaledNumber, interpScale: int): ScaledNumber
  {
    var t := ProductScale(a, b, interpScale);
    ScaledNumber(Rescale(a, t).number * Rescale(b, t).number, t)
  }

  /** `/` rescales both operands to InterpScale and divides the top one by
      the second, truncating; a zero divisor is a run-time panic. */
  function Quotient(a: ScaledNumber, b: ScaledNumber, interpScale: int): (r: Result<ScaledNumber>)
    ensures r.Err? <==> Rescale(b, interpScale).number == 0
    ensures r.Err? ==> r.error == DivisionByZero
    ensures r.Ok? ==> r.value.scale == interpScale
  {
    var x := Rescale(a, interpScale).number;
    var y := Rescale(b, interpScale).number;
    if y == 0 then Err(DivisionByZero) else Ok(ScaledNumber(Quot(x, y), interpScale))
  }

  /** `%`: the truncated remainder at the scale `*` uses. */
  function Remainder(a: ScaledNumber, b: ScaledNumber, interpScale: int): (r: Result<ScaledNumber>)
    ensures r.Err? <==> Rescale(b, ProductScale(a, b, interpScale)).number == 0
    ensures r.Err? ==> r.error == DivisionByZero
    ensures r.Ok? ==> r.value.scale == ProductScale(a, b, interpScale)
  {
    var t := ProductScale(a, b, interpScale);
    var x := Rescale(a, t).number;
    var y := Rescale(b, t).number;
    if y == 0 then Err(DivisionByZero) else Ok(ScaledNumber(Rem(x, y), t))
  }

  /** `^` works at IntMin(a.Scale*IntAbs(b.Scale), IntMax(InterpScale, a.Scale)). */
  function PowerScale(a: ScaledNumber, b: ScaledNumber, interpScale: int): int
  {
    MinOf([a.scale * Abs(b.scale), MaxOf([interpScale, a.scale])])
  }

  /** `^` starts from the base a and multiplies by it b times, or divides by
      it -b times when b is negative; the exponent b is first rescaled to
      scale 0. */
  function Power(a: ScaledNumber, b: ScaledNumber, interpScale: int): (r: Result<ScaledNumber>)
    ensures r.Err? <==> Rescale(b, 0).number < 0 && Rescale(a, PowerScale(a, b, interpScale)).number == 0
    ensures r.Err? ==> r.error == DivisionByZero
    ensures r.Ok? ==> r.value.scale == PowerScale(a, b, interpScale)
  {
    var t := PowerScale(a, b, interpScale);
    var base := Rescale(a, t).number;
    var exponent := Rescale(b, 0).number;
    if exponent >= 0 then Ok(ScaledNumber(base * Pow(base, exponent), t))
    else if base == 0 then Err(DivisionByZero)
    else Ok(ScaledNumber(RepeatQuot(base, base, -exponent), t))
  }

  predicate IsArithmetic(op: char)
  {
    op == '+' || op == '-' || op == '*' || op == '/' || op == '%' || op == '^'
  }

  /** The number an arithmetic opcode computes from its operands. */
  function Arithmetic(op: char, a: ScaledNumber, b: ScaledNumber, interpScale: int): Result<ScaledNumber>
    requires IsArithmetic(op)
  {
    match op
    case '+' => Ok(Sum(a, b))
    case '-' => Ok(Difference(a, b))
    case '*' => Ok(Product(a, b, interpScale))
    case '/' => Quotient(a, b, interpScale)
    case '%' => Remainder(a, b, interpScale)
    case '^' => Power(a, b, interpScale)
  }

  /** `+ - * / % ^`: pop two numbers, push the result. */
  function BinaryOp(m: MachineVal, op: char): (e: Effect)
    requires MachineOk(m) && IsArithmetic(op)
    ensures MachineOk(e.m) && e.signal != Leave
  {
    var (operands, m1) := PopOperands(m, op);
    match operands
    case Err(err) => Effect(Fail(err), m1)
    case Ok((a, b)) => PushResult(m1, Arithmetic(op, a, b, m.interpScale))
  }

  /** The end of an arithmetic opcode: push the number, or fail with the
      error computing it raised. */
  function PushResult(m: MachineVal, c: Result<ScaledNumber>): (e: Effect)
    requires MachineOk(m)
    ensures MachineOk(e.m) && e.signal != Leave
  {
    match c
    case Err(err) => Effect(Fail(err), m)
    case Ok(n) => Effect(Continue, PushRoot(m, Some(Num(n))))
  }

  // ---------------------------------------------------------------------
  // Registers. Each of s, S, l and L first creates the register when it is
  // missing.

  function RegisterOr(m: MachineVal, name: char): (s: StackVal)
    requires MachineOk(m)
    ensures WellFormed(s)
  {
    NewStackShape();
    if name in m.registers then m.registers[name] else NewStackVal()
  }

  /** `s`: set the register's pointer to 0, then push the root's top onto it. */
  function Store(m: MachineVal, name: char): (r: MachineVal)
    requires MachineOk(m)
    ensures MachineOk(r)
  {
    var reg := RegisterOr(m, name);
    var (x, m1) := PopRoot(m);
    var reg1 := PushVal(StackVal(reg.slots, 0), x);
    PushOnTop(StackVal(reg.slots, 0), x);
    m1.(registers := m1.registers[name := reg1])
  }

  /** `S`: push the root's top onto the register. */
  function StorePush(m: MachineVal, name: char): (r: MachineVal)
    requires MachineOk(m)
    ensures MachineOk(r)
  {
    var reg := RegisterOr(m, name);
    var (x, m1) := PopRoot(m);
    PushOnTop(reg, x);
    m1.(registers := m1.registers[name := PushVal(reg, x)])
  }

  /** `l`: point at slot 1 of an existing register (slot 0 of a new one),
      pop it onto the root, then leave the register's pointer at 1. */
  function Load(m: MachineVal, name: char): (r: MachineVal)
    requires MachineOk(m)
    ensures MachineOk(r)
  {
    var reg := RegisterOr(m, name);
    var reg1 := StackVal(reg.slots, if name in m.registers then 1 else 0);
    var (x, reg2) := PopVal(reg1);
    var m1 := PushRoot(m, x);
    m1.(registers := m1.registers[name := StackVal(reg2.slots, 1)])
  }

  /** `L`: pop the register's top onto the root. */
  function LoadPop(m: MachineVal, name: char): (r: MachineVal)
    requires MachineOk(m)
    ensures MachineOk(r)
  {
    var reg := RegisterOr(m, name);
    var (x, reg1) := PopVal(reg);
    var m1 := PushRoot(m, x);
    m1.(registers := m1.registers[name := reg1])
  }

  // ---------------------------------------------------------------------
  // Stack, output and setting opcodes

  /** `d`: push a copy of the top item. */
  function Duplicate(m: MachineVal): (e: Effect)
    requires MachineOk(m)
    ensures MachineOk(e.m) && e.signal != Leave
  {
    match PeekVal(m.root)
    case Err(err) => Effect(Fail(err), m)
    case Ok(item) => Effect(Continue, PushRoot(m, Some(item)))
  }

  /** What `p` and `f` print for a number: "%d" when its scale is 0, a float
      otherwise. */
  function NumberText(n: ScaledNumber): Out
  {
    if n.scale == 0 then Text(DecimalText(n.number)) else Fixed(n)
  }

  /** `p`: print the top number and a newline; a command is refused. */
  function PrintTop(m: MachineVal): (e: Effect)
    requires MachineOk(m)
    ensures MachineOk(e.m) && e.signal != Leave
  {
    match PeekVal(m.root)
    case Err(err) => Effect(Fail(err), m)
    case Ok(Cmd(_)) => Effect(Fail(TypeMismatch('p')), m)
    case Ok(Num(n)) => Effect(Continue, m.(output := m.output + [NumberText(n), Text("\n")]))
  }

  /** `P`: pop a command and print its text; a number is refused. */
  function PrintString(m: MachineVal): (e: Effect)
    requires MachineOk(m)
    ensures MachineOk(e.m) && e.signal != Leave
  {
    var (x, m1) := PopRoot(m);
    match x
    case Nil => Effect(Fail(NilItem), m1)
    case Some(Num(_)) => Effect(Fail(TypeMismatch('P')), m1)
    case Some(Cmd(t)) => Effect(Continue, m1.(output := m1.output + [Text(t)]))
  }

  /** The lines `f` prints for items: numbers as `p` prints them, commands
      as their text, each followed by a newline. */
  function Listing(items: seq<Slot>): seq<Out>
  {
    if items == [] then []
    else
      var last := items[|items| - 1];
      Listing(items[..|items| - 1]) +
      (match last
       case Nil => []
       case Some(Num(n)) => [NumberText(n), Text("\n")]
       case Some(Cmd(t)) => [Text(t + "\n")])
  }

  /** The index of the lowest nil slot, or |items| when there is none. */
  function FirstNil(items: seq<Slot>): (k: nat)
    ensures k <= |items|
    ensures forall j | 0 <= j < k :: items[j].Some?
    ensures k < |items| ==> items[k] == Nil
  {
    if items == [] then 0
    else if FirstNil(items[..|items| - 1]) < |items| - 1 then FirstNil(items[..|items| - 1])
    else if items[|items| - 1] == Nil then |items| - 1
    else |items|
  }

  /** The index FirstNil finds when slots[..k] holds no nil and slot k
      (if any) is nil. */
  lemma FirstNilAt(items: seq<Slot>, k: nat)
    requires k <= |items|
    requires forall j | 0 <= j < k :: items[j].Some?
    requires k < |items| ==> items[k] == Nil
    ensures FirstNil(items) == k
  {
  }

  /** `f`: print every item from the bottom up; a nil slot panics after the
      items below it were printed. */
  function PrintAll(m: MachineVal): (e: Effect)
    requires MachineOk(m)
    ensures MachineOk(e.m) && e.signal != Leave
  {
    var items := Contents(m.root);
    var k := FirstNil(items);
    var m1 := m.(output := m.output + Listing(items[..k]));
    if k < |items| then Effect(Fail(NilItem), m1) else Effect(Continue, m1)
  }

  /** `c`: a new, empty root stack. */
  function Clear(m: MachineVal): (r: MachineVal)
    requires MachineOk(m)
    ensures MachineOk(r)
  {
    NewStackShape();
    m.(root := NewStackVal())
  }

  /** An item holding an integer at scale 0, as NewItem plus Number. */
  function IntItem(n: int): Slot
  {
    Some(Num(ScaledNumber(n, 0)))
  }

  /** `z` pushes the root's pointer, `I` the input scale, `O` the output base. */
  function PushValue(m: MachineVal, op: char): (r: MachineVal)
    requires MachineOk(m) && (op == 'z' || op == 'I' || op == 'O')
    ensures MachineOk(r)
  {
    var n := if op == 'z' then m.root.pointer else if op == 'I' then m.interpScale else m.outBase;
    PushRoot(m, IntItem(n))
  }

  /** `X`: replace the top number by its scale. */
  function ScaleOfTop(m: MachineVal): (e: Effect)
    requires MachineOk(m)
    ensures MachineOk(e.m) && e.signal != Leave
  {
    var (x, m1) := PopRoot(m);
    match x
    case Nil => Effect(Fail(NilItem), m1)
    case Some(Cmd(_)) => Effect(Fail(TypeMismatch('X')), m1)
    case Some(Num(n)) => Effect(Continue, PushRoot(m1, IntItem(n.scale)))
  }

  predicate IsSetting(op: char)
  {
    op == 'i' || op == 'o' || op == 'k'
  }

  /** `i`, `o`, `k`: pop a number, rescale it to 0 and make it the input
      scale, the output base or the output scale. */
  function SetSetting(m: MachineVal, op: char): (e: Effect)
    requires MachineOk(m) && IsSetting(op)
    ensures MachineOk(e.m) && e.signal != Leave
  {
    var (x, m1) := PopRoot(m);
    match x
    case Nil => Effect(Fail(NilItem), m1)
    case Some(Cmd(_)) => Effect(Fail(TypeMismatch(op)), m1)
    case Some(Num(n)) =>
      var v := Rescale(n, 0).number;
      Effect(Continue,
        if op == 'i' then m1.(interpScale := v)
        else if op == 'o' then m1.(outBase := v)
        else m1.(outScale := v))
  }

  /** `q`: lower the level by two; below zero, leave the current activation. */
  function QuitOp(m: MachineVal): (e: Effect)
    ensures e.m == m.(interpLevel := m.interpLevel - 2)
    ensures e.signal == Leave <==> m.interpLevel < 2
    ensures e.signal.Fail? == false
  {
    var level := m.interpLevel - 2;
    Effect(if level < 0 then Leave else Continue, m.(interpLevel := level))
  }

  /** `Q`: pop a number, rescale it to 0 and lower the level by it; below
      zero, leave the current activation. */
  function QuitLevels(m: MachineVal): (e: Effect)
    requires MachineOk(m)
    ensures MachineOk(e.m)
  {
    var (x, m1) := PopRoot(m);
    match x
    case Nil => Effect(Fail(NilItem), m1)
    case Some(Cmd(_)) => Effect(Fail(TypeMismatch('Q')), m1)
    case Some(Num(n)) =>
      var level := m1.interpLevel - Rescale(n, 0).number;
      Effect(if level < 0 then Leave else Continue, m1.(interpLevel := level))
  }

  /** The test of `<`, `>` and `=`: top below second, top above second, or
      equal scale and number. */
  predicate Holds(op: char, a: ScaledNumber, b: ScaledNumber)
  {
    if op == '<' then Below(a, b) else if op == '>' then Below(b, a) else a == b
  }

  /** The opcodes that read nothing more from the input and run nothing:
      everything but the literals, the register opcodes, x and the
      conditionals. v, !, Z, ? and every rune without an opcode change
      nothing. */
  function SimpleOp(m: MachineVal, c: char): (e: Effect)
    requires MachineOk(m)
    ensures MachineOk(e.m)
  {
    if IsArithmetic(c) then BinaryOp(m, c)
    else if c == 'd' then Duplicate(m)
    else if c == 'p' then PrintTop(m)
    else if c == 'P' then PrintString(m)
    else if c == 'f' then PrintAll(m)
    else if c == 'c' then Effect(Continue, Clear(m))
    else if c == 'z' || c == 'I' || c == 'O' then Effect(Continue, PushValue(m, c))
    else if c == 'X' then ScaleOfTop(m)
    else if IsSetting(c) then SetSetting(m, c)
    else if c == 'q' then QuitOp(m)
    else if c == 'Q' then QuitLevels(m)
    else Effect(Continue, m)
  }
}
