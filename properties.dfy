/** What the opcodes of the interpreter guarantee, stated over the machine
    as a value: arithmetic, the register opcodes, execution of commands and
    quitting. */
module Properties {
  import opened Numbers
  import opened Items
  import opened Stacks
  import opened Lexer
  import opened Semantics
  import opened Execution

  // ---------------------------------------------------------------------
  // Arithmetic

  /** `+` is exact: both operands are written at the larger scale, which
      loses nothing, and their integers are added there. */
  lemma SumIsExact(a: ScaledNumber, b: ScaledNumber)
    ensures var t := SumScale(a, b);
            t >= a.scale && t >= b.scale &&
            Sum(a, b) == ScaledNumber(AtScale(a, t) + AtScale(b, t), t)
  {
    var t := SumScale(a, b);
    RescaleUp(a, t);
    RescaleUp(b, t);
  }

  /** `-` is exact in the same way, and takes the second operand from the
      top one. */
  lemma DifferenceIsExact(a: ScaledNumber, b: ScaledNumber)
    ensures var t := SumScale(a, b);
            t >= a.scale && t >= b.scale &&
            Difference(a, b) == ScaledNumber(AtScale(a, t) - AtScale(b, t), t)
  {
    var t := SumScale(a, b);
    RescaleUp(a, t);
    RescaleUp(b, t);
  }

  /** The scale of `*` and `%`: never more than the sum of the operands'
      scales, never more than the largest of the input scale and the
      operands' scales, and equal to one of the two. */
  lemma ProductScaleBounds(a: ScaledNumber, b: ScaledNumber, interpScale: int)
    requires MinInt32 <= interpScale <= MaxInt32
    requires MinInt32 <= a.scale <= MaxInt32 && MinInt32 <= b.scale <= MaxInt32
    requires MinInt32 <= a.scale + b.scale <= MaxInt32
    ensures var t := ProductScale(a, b, interpScale);
            t <= a.scale + b.scale &&
            var h := if interpScale >= a.scale && interpScale >= b.scale then interpScale
                     else if a.scale >= b.scale then a.scale else b.scale;
            t <= h && (t == a.scale + b.scale || t == h)
  {
    MaxOfThree(interpScale, a.scale, b.scale);
    MinOfTwo(a.scale + b.scale, MaxOf([interpScale, a.scale, b.scale]));
  }

  /** On integers (scale 0) with input scale 0, every opcode is the Go
      integer operation on top and second, and `^` yields the top raised
      to the second plus one. */
  lemma IntegerArithmetic(x: int, y: int)
    ensures var a, b := ScaledNumber(x, 0), ScaledNumber(y, 0);
            Sum(a, b) == ScaledNumber(x + y, 0) &&
            Difference(a, b) == ScaledNumber(x - y, 0) &&
            Product(a, b, 0) == ScaledNumber(x * y, 0) &&
            Quotient(a, b, 0) == (if y == 0 then Err(DivisionByZero) else Ok(ScaledNumber(Quot(x, y), 0))) &&
            Remainder(a, b, 0) == (if y == 0 then Err(DivisionByZero) else Ok(ScaledNumber(Rem(x, y), 0))) &&
            (y >= 0 ==> Power(a, b, 0) == Ok(ScaledNumber(Pow(x, y + 1), 0)))
  {
    var a, b := ScaledNumber(x, 0), ScaledNumber(y, 0);
    RescaleSame(a);
    RescaleSame(b);
    MaxOfThree(0, 0, 0);
    MinOfTwo(0, MaxOf([0, 0, 0]));
    assert ProductScale(a, b, 0) == 0;
    assert MaxOf([0, 0]) == 0;
    assert PowerScale(a, b, 0) == 0;
  }

  /** A binary opcode pops the top a and then b; a nil slot or a command
      in either place stops it, the top checked first, and otherwise it
      fails exactly when the arithmetic does. */
  lemma BinaryOpChecks(m: MachineVal, op: char)
    requires MachineOk(m) && IsArithmetic(op)
    ensures var (x, m1) := PopRoot(m);
            var (y, m2) := PopRoot(m1);
            var e := BinaryOp(m, op);
            (x == Nil ==> e == Effect(Fail(NilItem), m2)) &&
            (x.Some? && x.item.Cmd? ==> e == Effect(Fail(TypeMismatch(op)), m2)) &&
            (x.Some? && x.item.Num? && y == Nil ==> e == Effect(Fail(NilItem), m2)) &&
            (x.Some? && x.item.Num? && y.Some? && y.item.Cmd? ==> e == Effect(Fail(TypeMismatch(op)), m2)) &&
            (x.Some? && x.item.Num? && y.Some? && y.item.Num? ==>
               (e.signal == Continue <==> Arithmetic(op, x.item.n, y.item.n, m.interpScale).Ok?))
  {
  }

  /** With two items or more on the root, a binary opcode that succeeds
      replaces the top two by its result: the depth drops by one and the
      items below are kept. */
  lemma BinaryOpDepth(m: MachineVal, op: char)
    requires MachineOk(m) && IsArithmetic(op) && m.root.pointer >= 2
    requires BinaryOp(m, op).signal == Continue
    ensures var c := Contents(m.root);
            var a, b := c[|c| - 1], c[|c| - 2];
            a.Some? && a.item.Num? && b.Some? && b.item.Num? &&
            Arithmetic(op, a.item.n, b.item.n, m.interpScale).Ok? &&
            Contents(BinaryOp(m, op).m.root) ==
              c[..|c| - 2] + [Some(Num(Arithmetic(op, a.item.n, b.item.n, m.interpScale).value))]
  {
    var c := Contents(m.root);
    var (x, m1) := PopRoot(m);
    PopTop(m.root);
    var (y, m2) := PopRoot(m1);
    PopTop(m1.root);
    assert c == Contents(m1.root) + [x];
    assert Contents(m1.root) == Contents(m2.root) + [y];
    assert c[..|c| - 2] == Contents(m2.root);
    var r := Arithmetic(op, x.item.n, y.item.n, m.interpScale);
    PushOnTop(m2.root, Some(Num(r.value)));
  }

  // ---------------------------------------------------------------------
  // Registers

  /** Every register opcode creates its register when it is missing, and
      no other. */
  lemma RegisterOpCreates(m: MachineVal, c: char, name: char)
    requires MachineOk(m) && IsRegisterOp(c)
    ensures RegisterOp(m, c, name).registers.Keys == m.registers.Keys + {name}
  {
  }

  /** The opcodes on one register leave every other register and every
      setting as they were. */
  lemma RegisterOpFrame(m: MachineVal, c: char, name: char)
    requires MachineOk(m) && IsRegisterOp(c)
    ensures var r := RegisterOp(m, c, name);
            (forall q | q in m.registers && q != name :: r.registers[q] == m.registers[q]) &&
            r == m.(root := r.root, registers := r.registers)
  {
  }

  /** `s`: the register is reset to the fresh zero with the popped item on
      top of it, and the root loses its top. */
  lemma StoreShape(m: MachineVal, name: char)
    requires MachineOk(m)
    ensures var (x, m1) := PopRoot(m);
            var r := Store(m, name);
            Contents(r.registers[name]) == [Some(ZeroItem), x] &&
            r.root == m1.root
  {
    var reg := RegisterOr(m, name);
    var (x, m1) := PopRoot(m);
    PushOnTop(StackVal(reg.slots, 0), x);
  }

  /** `S`: the popped item is pushed on top of the register. */
  lemma StorePushShape(m: MachineVal, name: char)
    requires MachineOk(m)
    ensures var (x, m1) := PopRoot(m);
            var r := StorePush(m, name);
            Contents(r.registers[name]) == Contents(RegisterOr(m, name)) + [x] &&
            r.root == m1.root
  {
    var (x, m1) := PopRoot(m);
    PushOnTop(RegisterOr(m, name), x);
  }

  /** `L`: the register's top is popped onto the root. */
  lemma LoadPopShape(m: MachineVal, name: char)
    requires MachineOk(m)
    ensures var reg := RegisterOr(m, name);
            var r := LoadPop(m, name);
            Contents(r.root) == Contents(m.root) + [reg.slots[reg.pointer]] &&
            r.registers[name] == PopVal(reg).1
  {
    var reg := RegisterOr(m, name);
    PushOnTop(m.root, reg.slots[reg.pointer]);
  }

  /** `l` on an existing register pushes a copy of its slot 1 onto the root
      and leaves the register's slots alone with its pointer at 1. */
  lemma LoadExisting(m: MachineVal, name: char)
    requires MachineOk(m) && name in m.registers
    ensures var reg := m.registers[name];
            var r := Load(m, name);
            Contents(r.root) == Contents(m.root) + [reg.slots[1]] &&
            r.registers[name] == StackVal(reg.slots, 1)
  {
    var reg := m.registers[name];
    PushOnTop(m.root, reg.slots[1]);
  }

  /** `l` on a missing register pushes a zero and leaves the new register
      pointing at slot 1, which holds no item. */
  lemma LoadMissing(m: MachineVal, name: char)
    requires MachineOk(m) && name !in m.registers
    ensures var r := Load(m, name);
            Contents(r.root) == Contents(m.root) + [Some(ZeroItem)] &&
            Contents(r.registers[name]) == [Some(ZeroItem), Nil]
  {
    PushOnTop(m.root, Some(ZeroItem));
    NewStackShape();
  }

  /** `s` then `l` on the same register gives the root back its top item,
      and `l` leaves the register as `s` made it. */
  lemma StoreThenLoad(m: MachineVal, name: char)
    requires MachineOk(m) && m.root.pointer >= 1
    ensures var r := Load(Store(m, name), name);
            Contents(r.root) == Contents(m.root) &&
            r.registers[name] == Store(m, name).registers[name]
  {
    var (x, m1) := PopRoot(m);
    PopTop(m.root);
    StoreShape(m, name);
    var st := Store(m, name);
    LoadExisting(st, name);
    var reg := st.registers[name];
    assert Contents(reg) == reg.slots[..2];
    assert reg.slots[1] == x;
  }

  /** `S` then `L` on the same register gives the root back its top item and
      the register back its contents. */
  lemma StorePushThenLoadPop(m: MachineVal, name: char)
    requires MachineOk(m) && m.root.pointer >= 1
    ensures var r := LoadPop(StorePush(m, name), name);
            Contents(r.root) == Contents(m.root) &&
            Contents(r.registers[name]) == Contents(RegisterOr(m, name))
  {
    var (x, m1) := PopRoot(m);
    PopTop(m.root);
    var st := StorePush(m, name);
    var reg := RegisterOr(m, name);
    PushOnTop(reg, x);
    LoadPopShape(st, name);
    PopTop(PushVal(reg, x));
  }

  // ---------------------------------------------------------------------
  // Execution

  /** Fuel only bounds the depth of nested activations: a run that did not
      run out of fuel gives the same outcome with any larger bound. */
  lemma {:induction false} RunFuel(m: MachineVal, input: string, pos: nat, f: nat, g: nat)
    requires MachineOk(m) && pos <= |input| && f <= g
    requires Run(m, input, pos, f).signal != Fail(OutOfFuel)
    ensures Run(m, input, pos, g) == Run(m, input, pos, f)
    decreases f, |input| - pos, 2
  {
    if pos < |input| {
      var s := Step(m, input, pos, f);
      StepFuel(m, input, pos, f, g);
      if s.signal == Continue {
        RunFuel(s.m, input, s.pos, f, g);
      }
    }
  }

  lemma {:induction false} StepFuel(m: MachineVal, input: string, pos: nat, f: nat, g: nat)
    requires MachineOk(m) && pos < |input| && f <= g
    requires Step(m, input, pos, f).signal != Fail(OutOfFuel)
    ensures Step(m, input, pos, g) == Step(m, input, pos, f)
    decreases f, |input| - pos, 1
  {
    var c := input[pos];
    if !StartsNumber(c) && c != '[' && !IsRegisterOp(c) {
      if IsConditional(c) {
        ConditionalFuel(m, input, pos, f, g);
      } else if c == 'x' {
        var (x, m1) := PopRoot(m);
        if x.Some? && x.item.Cmd? {
          NestedFuel(m1, x.item.text, f, g);
        }
      }
    }
  }

  lemma {:induction false} ConditionalFuel(m: MachineVal, input: string, pos: nat, f: nat, g: nat)
    requires MachineOk(m) && pos < |input| && IsConditional(input[pos]) && f <= g
    requires Conditional(m, input, pos, f).signal != Fail(OutOfFuel)
    ensures Conditional(m, input, pos, g) == Conditional(m, input, pos, f)
    decreases f, |input| - pos, 0
  {
    var op := input[pos];
    var (operands, m1) := PopOperands(m, op);
    if operands.Ok? && pos + 1 < |input| {
      var name := input[pos + 1];
      var (a, b) := operands.value;
      if Holds(op, a, b) && name in m1.registers {
        var t := PeekVal(m1.registers[name]);
        if t.Ok? && t.value.Cmd? {
          NestedFuel(m1, t.value.text, f, g);
        }
      }
    }
  }

  lemma {:induction false} NestedFuel(m: MachineVal, text: string, f: nat, g: nat)
    requires MachineOk(m) && f <= g
    requires Nested(m, text, f).signal != Fail(OutOfFuel)
    ensures Nested(m, text, g) == Nested(m, text, f)
    decreases f, 0, 0
  {
    assert f > 0;
    var o := Run(m, text, 0, f - 1);
    assert Resume(o.signal) == Nested(m, text, f).signal;
    RunFuel(m, text, 0, f - 1, g - 1);
  }

  /** The same for a whole program. */
  lemma ProgramFuel(input: string, f: nat, g: nat)
    requires f <= g && Program(input, f).signal != Fail(OutOfFuel)
    ensures Program(input, g) == Program(input, f)
  {
    RunFuel(Initial(), input, 0, f, g);
  }

  /** `x` pops the top: no item or a number stops the activation, and a
      command runs in a nested activation of its own text, after which the
      caller goes on at the next rune, in the state the command left,
      unless the command failed. */
  lemma ExecuteChecks(m: MachineVal, input: string, pos: nat, fuel: nat)
    requires MachineOk(m) && pos < |input| && input[pos] == 'x'
    ensures var (x, m1) := PopRoot(m);
            var r := Step(m, input, pos, fuel);
            r.pos == pos + 1 &&
            (x == Nil ==> r == Outcome(Fail(NilItem), m1, pos + 1)) &&
            (x.Some? && x.item.Num? ==> r == Outcome(Fail(TypeMismatch('x')), m1, pos + 1)) &&
            (x.Some? && x.item.Cmd? ==>
               (fuel == 0 ==> r == Outcome(Fail(OutOfFuel), m1, pos + 1)) &&
               (fuel > 0 ==> r.signal == Resume(Run(m1, x.item.text, 0, fuel - 1).signal) &&
                             r.m == Run(m1, x.item.text, 0, fuel - 1).m)) &&
            r.signal != Leave
  {
  }

  /** A bracket-free command written out and executed: `[T]x` pushes T,
      pops it straight back (the root shows what it showed before) and runs
      T nested; the caller then carries on after the `x`. */
  lemma ExecuteWritten(m: MachineVal, text: string, rest: string, fuel: nat)
    requires MachineOk(m)
    requires forall k | 0 <= k < |text| :: text[k] != '[' && text[k] != ']'
    ensures var input := "[" + text + "]x" + rest;
            var m1 := PopRoot(PushRoot(m, Some(Cmd(text)))).1;
            var e := Nested(m1, text, fuel);
            Contents(m1.root) == Contents(m.root) &&
            Run(m, input, 0, fuel) ==
              if e.signal == Continue then Run(e.m, input, |text| + 3, fuel)
              else Outcome(e.signal, e.m, |text| + 3)
  {
    var input := "[" + text + "]x" + rest;
    assert input == "[" + text + "]" + ("x" + rest);
    CommandRoundTrip(text, "x" + rest);
    var m0 := PushRoot(m, Some(Cmd(text)));
    assert Step(m, input, 0, fuel) == Outcome(Continue, m0, |text| + 2);
    PopTop(m0.root);
    assert input[|text| + 2] == 'x';
    var s := Step(m0, input, |text| + 2, fuel);
    assert Run(m, input, 0, fuel) == Run(m0, input, |text| + 2, fuel);
  }

  /** At the top level `q` leaves the program at once: the initial level 0
      drops to -2. */
  lemma QuitAtTopLevel(rest: string, fuel: nat)
    ensures Program("q" + rest, fuel) == Outcome(Leave, Initial().(interpLevel := -2), 1)
  {
    var input := "q" + rest;
    assert input[0] == 'q';
    assert Step(Initial(), input, 0, fuel) == Outcome(Leave, Initial().(interpLevel := -2), 1);
  }

  /** Inside a command `q` only ends the nested activation: the caller
      resumes whatever the level, which is still lowered by two. */
  lemma NestedQuitResumes(m: MachineVal, fuel: nat)
    requires MachineOk(m) && fuel >= 1
    ensures Nested(m, "q", fuel) == Effect(Continue, m.(interpLevel := m.interpLevel - 2))
  {
    assert "q"[0] == 'q';
    var o := Step(m, "q", 0, fuel - 1);
    assert o == Outcome(QuitOp(m).signal, m.(interpLevel := m.interpLevel - 2), 1);
    if o.signal == Continue {
      assert Run(o.m, "q", 1, fuel - 1) == Outcome(Continue, o.m, 1);
    }
  }

  /** `Q` with 2 on top is `q` on the rest of the stack. */
  lemma QuitTwoLevelsIsQuit(m: MachineVal)
    requires MachineOk(m)
    requires PopRoot(m).0 == Some(Num(ScaledNumber(2, 0)))
    ensures QuitLevels(m) == QuitOp(PopRoot(m).1)
  {
    RescaleSame(ScaledNumber(2, 0));
  }

  /** `Q` lowers the level by the popped number taken to scale 0 and leaves
      exactly when the level goes below zero. */
  lemma QuitLevelsShape(m: MachineVal)
    requires MachineOk(m)
    ensures var (x, m1) := PopRoot(m);
            var e := QuitLevels(m);
            (x == Nil ==> e == Effect(Fail(NilItem), m1)) &&
            (x.Some? && x.item.Cmd? ==> e == Effect(Fail(TypeMismatch('Q')), m1)) &&
            (x.Some? && x.item.Num? ==>
               var level := m.interpLevel - Rescale(x.item.n, 0).number;
               e.m == m1.(interpLevel := level) && (e.signal == Leave <==> level < 0) && e.signal != Fail(NilItem))
  {
  }

  /** The tests of the conditionals: `<` and `>` compare the values the
      numbers stand for, at any scale both fit, and `=` wants the same
      scale and the same integer. */
  lemma HoldsMeaning(a: ScaledNumber, b: ScaledNumber, k: int)
    requires k >= a.scale && k >= b.scale && k >= 0
    ensures Holds('<', a, b) <==> AtScale(a, k) < AtScale(b, k)
    ensures Holds('>', a, b) <==> AtScale(a, k) > AtScale(b, k)
    ensures Holds('=', a, b) <==> a.scale == b.scale && a.number == b.number
  {
    BelowAtAnyScale(a, b, k);
    BelowAtAnyScale(b, a, k);
  }

  /** A conditional checks both operands, then reads the register name;
      a test that fails goes on after the name, and one that holds runs
      the command on top of that register, failing when the register was
      never made, has no item on top or holds a number there. */
  lemma ConditionalShape(m: MachineVal, input: string, pos: nat, fuel: nat)
    requires MachineOk(m) && pos < |input| && IsConditional(input[pos])
    ensures var op := input[pos];
            var (operands, m1) := PopOperands(m, op);
            var r := Conditional(m, input, pos, fuel);
            (operands.Err? ==> r == Outcome(Fail(operands.error), m1, pos + 1)) &&
            (operands.Ok? && pos + 1 == |input| ==> r == Outcome(Fail(EndOfInput), m1, pos + 1)) &&
            (operands.Ok? && pos + 1 < |input| ==>
               var name := input[pos + 1];
               r.pos == pos + 2 &&
               (!Holds(op, operands.value.0, operands.value.1) ==> r == Outcome(Continue, m1, pos + 2)) &&
               (Holds(op, operands.value.0, operands.value.1) && name !in m1.registers ==>
                  r == Outcome(Fail(MissingRegister(name)), m1, pos + 2)) &&
               (Holds(op, operands.value.0, operands.value.1) && name in m1.registers &&
                PeekVal(m1.registers[name]).Err? ==>
                  r == Outcome(Fail(NilItem), m1, pos + 2)) &&
               (Holds(op, operands.value.0, operands.value.1) && name in m1.registers &&
                PeekVal(m1.registers[name]).Ok? && PeekVal(m1.registers[name]).value.Num? ==>
                  r == Outcome(Fail(TypeMismatch(op)), m1, pos + 2)) &&
               (Holds(op, operands.value.0, operands.value.1) && name in m1.registers &&
                PeekVal(m1.registers[name]).Ok? && PeekVal(m1.registers[name]).value.Cmd? ==>
                  r == Outcome(Nested(m1, PeekVal(m1.registers[name]).value.text, fuel).signal,
                               Nested(m1, PeekVal(m1.registers[name]).value.text, fuel).m, pos + 2)))
  {
  }

  // ---------------------------------------------------------------------
  // Reading literals

  /** The '.' counts towards the scale as well as every digit after it,
      so "2.5" reads as 25 at scale 2, that is 0.25. */
  lemma DecimalLiteralExample()
    ensures LexNumber("2.5", 0) == Ok((ScaledNumber(25, 2), 3))
  {
    var t := "2.5";
    RunEndUnique(t, 0, 3);
    assert t[0..3] == t;
    assert t[..2] == "2." && t[..2][..1] == "2" && "2"[..0] == "";
    assert NumText(t) == "25";
    assert ScaleOf(t) == 2;
    assert "25"[..1] == "2";
    assert DigitsValue("25", 10) == 25;
  }

  /** A hex letter anywhere makes the whole literal hexadecimal, and '_'
      is its sign: "_1f" reads as -31. */
  lemma HexLiteralExample()
    ensures LexNumber("_1f p", 0) == Ok((ScaledNumber(-31, 0), 3))
  {
    var t := "_1f p";
    RunEndUnique(t, 0, 3);
    var run := "_1f";
    assert t[0..3] == run;
    assert run[..2] == "_1" && run[..2][..1] == "_" && "_"[..0] == "";
    assert NumText(run) == "-1f";
    assert IsHexLetter(run[2]);
    assert BaseOf(run) == 16;
    assert ScaleOf(run) == 0;
    assert "-1f"[1..] == "1f" && "1f"[..1] == "1";
    assert DigitsValue("1f", 16) == 31;
  }

  /** "5." reads as 5 at scale 1, that is 0.5, and ends before the blank. */
  lemma PointLiteralExample()
    ensures LexNumber("5. 5. *", 0) == Ok((ScaledNumber(5, 1), 2))
  {
    var t := "5. 5. *";
    RunEndUnique(t, 0, 2);
    var run := "5.";
    assert t[0..2] == run;
    assert run[..1] == "5" && "5"[..0] == "";
    assert NumText(run) == "5";
    assert BaseOf(run) == 10;
    assert ScaleOf(run) == 1;
    assert DigitsValue("5", 10) == 5;
  }

  /** `*` at a non-zero scale multiplies the rescaled integers and keeps
      the target scale: the product of two numbers 5 at scale 1 (0.5) is
      25 at scale 1, that is 2.5 where 0.25 is meant. */
  lemma ProductOffByPowerOfTen()
    ensures Product(ScaledNumber(5, 1), ScaledNumber(5, 1), 0) == ScaledNumber(25, 1)
  {
    var a := ScaledNumber(5, 1);
    MaxOfThree(0, 1, 1);
    MinOfTwo(2, 1);
    assert ProductScale(a, a, 0) == 1;
    RescaleSame(a);
  }

  /** A decimal digit of another script, such as U+0663, starts a literal
      but is not a hexadecimal digit: the literal is empty and its parse
      fails. */
  lemma ForeignDigitFails(m: MachineVal, input: string, pos: nat, fuel: nat)
    requires MachineOk(m) && pos < |input|
    requires IsUnicodeDigit(input[pos]) && !IsDecimalDigit(input[pos])
    ensures Step(m, input, pos, fuel) == Outcome(Fail(ParseFailure), m, pos + 1)
  {
    DecimalHexDigits(input[pos]);
    assert RunEnd(input, pos) == pos;
    assert input[pos..pos] == "";
  }

  // ---------------------------------------------------------------------
  // Stack, output and setting opcodes

  /** The top slot of the root stack. */
  function Top(m: MachineVal): Slot
    requires MachineOk(m)
  {
    m.root.slots[m.root.pointer]
  }

  /** `d` pushes a copy of the top item and changes nothing else; a nil top
      stops it before anything changes. */
  lemma DuplicateShape(m: MachineVal)
    requires MachineOk(m)
    ensures var e := Duplicate(m);
            (Top(m) == Nil ==> e == Effect(Fail(NilItem), m)) &&
            (Top(m).Some? ==>
               e.signal == Continue && e.m == m.(root := e.m.root) &&
               Contents(e.m.root) == Contents(m.root) + [Top(m)])
  {
  }

  /** `p` on an integer prints text that reads back as that integer, then
      a newline, and leaves the stack alone. */
  lemma PrintTopReadsBack(m: MachineVal, v: int)
    requires MachineOk(m) && Top(m) == IntItem(v) && IsInt64(v)
    ensures var e := PrintTop(m);
            e.signal == Continue && e.m.root == m.root &&
            |e.m.output| == |m.output| + 2 && e.m.output[..|m.output|] == m.output &&
            e.m.output[|m.output|].Text? && ParseInt(e.m.output[|m.output|].s, 10) == Ok(v) &&
            e.m.output[|m.output| + 1] == Text("\n")
  {
    ParseDecimalText(v);
  }

  /** `P` pops a command and prints its text; a number is refused. */
  lemma PrintStringShape(m: MachineVal)
    requires MachineOk(m)
    ensures var (x, m1) := PopRoot(m);
            var e := PrintString(m);
            e.m.root == m1.root &&
            (x.Some? && x.item.Cmd? ==> e == Effect(Continue, m1.(output := m.output + [Text(x.item.text)]))) &&
            (x.Some? && x.item.Num? ==> e == Effect(Fail(TypeMismatch('P')), m1))
  {
  }

  /** `f` never changes the stack; it goes on exactly when no visible slot
      is nil, and then it has printed something for every item. */
  lemma PrintAllShape(m: MachineVal)
    requires MachineOk(m)
    ensures var e := PrintAll(m);
            var c := Contents(m.root);
            e.m == m.(output := e.m.output) &&
            (e.signal == Continue <==> forall j | 0 <= j < |c| :: c[j].Some?) &&
            (e.signal == Continue ==> e.m.output == m.output + Listing(c) && |Listing(c)| >= |c|)
  {
    var c := Contents(m.root);
    if forall j | 0 <= j < |c| :: c[j].Some? {
      FirstNilAt(c, |c|);
      assert c[..|c|] == c;
      ListingLength(c);
    }
  }

  /** Every item gives at least one piece of output. */
  lemma {:induction false} ListingLength(items: seq<Slot>)
    requires forall j | 0 <= j < |items| :: items[j].Some?
    ensures |Listing(items)| >= |items|
  {
    if items != [] {
      ListingLength(items[..|items| - 1]);
    }
  }

  /** `c` leaves a root holding only the zero item, and the registers and
      settings as they were. */
  lemma ClearShape(m: MachineVal)
    requires MachineOk(m)
    ensures Contents(Clear(m).root) == [Some(ZeroItem)] && Clear(m) == m.(root := Clear(m).root)
  {
    NewStackShape();
  }

  /** `z` pushes the number of items above the base zero. */
  lemma DepthShape(m: MachineVal)
    requires MachineOk(m)
    ensures Contents(PushValue(m, 'z').root) == Contents(m.root) + [IntItem(|Contents(m.root)| - 1)]
  {
  }

  /** `X` replaces the top number by its scale, an integer. */
  lemma ScaleOfTopShape(m: MachineVal)
    requires MachineOk(m) && m.root.pointer >= 1 && Top(m).Some? && Top(m).item.Num?
    ensures var e := ScaleOfTop(m);
            var c := Contents(m.root);
            e.signal == Continue &&
            Contents(e.m.root) == c[..|c| - 1] + [IntItem(Top(m).item.n.scale)]
  {
    PopTop(m.root);
    var c := Contents(m.root);
    assert c[..|c| - 1] == Contents(PopRoot(m).1.root);
  }

  /** `i`, `o` and `k` take an integer as it is; a number with a positive
      scale is rescaled down to 0, which makes it 0. */
  lemma SetSettingValue(m: MachineVal, op: char)
    requires MachineOk(m) && IsSetting(op) && Top(m).Some? && Top(m).item.Num?
    requires Top(m).item.n.scale >= 0
    ensures var n := Top(m).item.n;
            var v := if n.scale == 0 then n.number else 0;
            var e := SetSetting(m, op);
            var m1 := PopRoot(m).1;
            e.signal == Continue &&
            e.m == (if op == 'i' then m1.(interpScale := v)
                    else if op == 'o' then m1.(outBase := v) else m1.(outScale := v))
  {
    RescaleToZero(Top(m).item.n);
  }

  /** `i` then `I` gives the root back the integer `i` took. */
  lemma InputScaleRoundTrip(m: MachineVal, v: int)
    requires MachineOk(m) && m.root.pointer >= 1 && Top(m) == IntItem(v)
    ensures Contents(PushValue(SetSetting(m, 'i').m, 'I').root) == Contents(m.root)
  {
    PopTop(m.root);
    SetSettingValue(m, 'i');
  }

  /** `o` then `O` does the same with the output base. */
  lemma OutputBaseRoundTrip(m: MachineVal, v: int)
    requires MachineOk(m) && m.root.pointer >= 1 && Top(m) == IntItem(v)
    ensures Contents(PushValue(SetSetting(m, 'o').m, 'O').root) == Contents(m.root)
  {
    PopTop(m.root);
    SetSettingValue(m, 'o');
  }
}
