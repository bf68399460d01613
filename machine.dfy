/** The interpreter as the Go program runs it: the root stack is a Stack
    object whose array Push and Pop update in place, the registers and the
    settings are fields the opcodes reassign, and Interp is a loop over the
    input that calls itself for `x`, `<`, `>` and `=`. Each method is proved
    to do what the functions of Semantics and Execution say, through Abs(). */
module Machines {
  import opened Numbers
  import opened Items
  import opened Stacks
  import opened Lexer
  import opened Semantics
  import opened Execution

  class Machine {
    var root: Stack
    /** The register stacks, as values: each opcode reassigns the one it
        changes. */
    var registers: map<char, StackVal>
    var interpScale: int
    var interpLevel: int
    var outBase: int
    var outScale: int
    var output: seq<Out>
    ghost var Repr: set<object>

    /** The machine owns itself, the root stack and its array, and every
        stack is well formed. */
    ghost predicate Valid()
      reads this, root, root.items
    {
      Repr == {this, root, root.items} && root.Valid() &&
      forall r | r in registers :: WellFormed(registers[r])
    }

    /** The machine as a value. */
    ghost function Abs(): (m: MachineVal)
      reads this, root, root.items
    {
      MachineVal(root.Val(), registers, interpScale, interpLevel, outBase, outScale, output)
    }

    /** The state main sets up: a new root stack, no registers, input
        scale 0, level 0, output base 10, output scale 0. */
    constructor ()
      ensures Valid() && fresh(Repr)
      ensures Abs() == Initial()
    {
      root := new Stack();
      registers := map[];
      interpScale := 0;
      interpLevel := 0;
      outBase := 10;
      outScale := 0;
      output := [];
      new;
      Repr := {this, root, root.items};
    }

    // -------------------------------------------------------------------
    // Primitive updates of the root stack and the fields

    method RootPush(x: Slot)
      requires Valid()
      modifies Repr
      ensures Valid() && fresh(Repr - old(Repr))
      ensures Abs() == PushRoot(old(Abs()), x)
    {
      root.Push(x);
      Repr := {this, root, root.items};
    }

    method RootPop() returns (x: Slot)
      requires Valid()
      modifies Repr
      ensures Valid() && Repr == old(Repr)
      ensures (x, Abs()) == PopRoot(old(Abs()))
    {
      x := root.Pop();
    }

    /** Appends to the output. */
    method Emit(outs: seq<Out>)
      requires Valid()
      modifies this
      ensures Valid() && Repr == old(Repr)
      ensures Abs() == old(Abs()).(output := old(output) + outs)
    {
      output := output + outs;
    }

    /** Pops a and b and checks them: the two pops of every binary opcode
        and of the conditionals. */
    method PopOperandsOp(op: char) returns (r: Result<(ScaledNumber, ScaledNumber)>)
      requires Valid()
      modifies Repr
      ensures Valid() && Repr == old(Repr)
      ensures (r, Abs()) == PopOperands(old(Abs()), op)
    {
      var a := RootPop();
      var b := RootPop();
      r := CheckOperands(a, b, op);
    }

    /** `+ - * / % ^`. */
    method BinaryOpcode(op: char) returns (signal: Signal)
      requires Valid() && IsArithmetic(op)
      modifies Repr
      ensures Valid() && fresh(Repr - old(Repr))
      ensures Effect(signal, Abs()) == BinaryOp(old(Abs()), op)
    {
      ghost var m0 := Abs();
      var operands := PopOperandsOp(op);
      ghost var m1 := Abs();
      assert (operands, m1) == PopOperands(m0, op) && m1.interpScale == m0.interpScale;
      if operands.Err? {
        assert BinaryOp(m0, op) == Effect(Fail(operands.error), m1);
        return Fail(operands.error);
      }
      var (a, b) := operands.value;
      assert BinaryOp(m0, op) == PushResult(m1, Arithmetic(op, a, b, m1.interpScale));
      signal := ComputeAndPush(op, a, b);
    }

    /** Computes a op b at the current input scale and pushes the result. */
    method ComputeAndPush(op: char, a: ScaledNumber, b: ScaledNumber) returns (signal: Signal)
      requires Valid() && IsArithmetic(op)
      modifies Repr
      ensures Valid() && fresh(Repr - old(Repr))
      ensures Effect(signal, Abs()) == PushResult(old(Abs()), Arithmetic(op, a, b, old(interpScale)))
    {
      var c := Compute(op, a, b, interpScale);
      signal := PushResultOp(c);
    }

    /** Pushes a computed number, or fails with its error. */
    method PushResultOp(c: Result<ScaledNumber>) returns (signal: Signal)
      requires Valid()
      modifies Repr
      ensures Valid() && fresh(Repr - old(Repr))
      ensures Effect(signal, Abs()) == PushResult(old(Abs()), c)
    {
      if c.Err? {
        return Fail(c.error);
      }
      RootPush(Some(Num(c.value)));
      signal := Continue;
    }

    /** `d`. */
    method DuplicateOpcode() returns (signal: Signal)
      requires Valid()
      modifies Repr
      ensures Valid() && fresh(Repr - old(Repr))
      ensures Effect(signal, Abs()) == Duplicate(old(Abs()))
    {
      var a := root.Peek();
      if a.Err? {
        return Fail(a.error);
      }
      RootPush(Some(a.value));
      signal := Continue;
    }

    /** `p`. */
    method PrintTopOpcode() returns (signal: Signal)
      requires Valid()
      modifies this
      ensures Valid() && Repr == old(Repr)
      ensures Effect(signal, Abs()) == PrintTop(old(Abs()))
    {
      var a := root.Peek();
      if a.Err? {
        return Fail(a.error);
      }
      match a.value
      case Cmd(_) =>
        return Fail(TypeMismatch('p'));
      case Num(n) =>
        Emit([NumberText(n), Text("\n")]);
          signal := Continue;
    }

    /** `P`. */
    method PrintStringOpcode() returns (signal: Signal)
      requires Valid()
      modifies Repr
      ensures Valid() && Repr == old(Repr)
      ensures Effect(signal, Abs()) == PrintString(old(Abs()))
    {
      var a := RootPop();
      match a
      case Nil =>
        return Fail(NilItem);
      case Some(Num(_)) =>
        return Fail(TypeMismatch('P'));
      case Some(Cmd(t)) =>
        Emit([Text(t)]);
        signal := Continue;
    }

    /** `f`, with its loop from the bottom slot to the top one. */
    method PrintAllOpcode() returns (signal: Signal)
      requires Valid()
      modifies this
      ensures Valid() && Repr == old(Repr)
      ensures Effect(signal, Abs()) == PrintAll(old(Abs()))
    {
      ghost var items := Contents(root.Val());
      var lines: seq<Out> := [];
      var i := 0;
      while i <= root.pointer
        invariant 0 <= i <= |items| == root.pointer + 1
        invariant forall j | 0 <= j < i :: items[j].Some?
        invariant lines == Listing(items[..i])
        decreases |items| - i
      {
        var a := root.items[i];
        assert a == items[i];
        assert items[..i + 1][..i] == items[..i];
        if a.Nil? {
          FirstNilAt(items, i);
          Emit(lines);
          return Fail(NilItem);
        }
        match a.item {
          case Num(n) =>
            lines := lines + [NumberText(n), Text("\n")];
          case Cmd(t) =>
            lines := lines + [Text(t + "\n")];
        }
        i := i + 1;
      }
      assert items[..i] == items;
      FirstNilAt(items, |items|);
      Emit(lines);
      signal := Continue;
    }

    /** `c`. */
    method ClearOpcode()
      requires Valid()
      modifies this
      ensures Valid() && fresh(Repr - old(Repr))
      ensures Abs() == Clear(old(Abs()))
    {
      root := new Stack();
      Repr := {this, root, root.items};
    }

    /** `z`, `I`, `O`. */
    method PushValueOpcode(op: char)
      requires Valid() && (op == 'z' || op == 'I' || op == 'O')
      modifies Repr
      ensures Valid() && fresh(Repr - old(Repr))
      ensures Abs() == PushValue(old(Abs()), op)
    {
      var n := if op == 'z' then root.pointer else if op == 'I' then interpScale else outBase;
      RootPush(IntItem(n));
    }

    /** `X`. */
    method ScaleOfTopOpcode() returns (signal: Signal)
      requires Valid()
      modifies Repr
      ensures Valid() && fresh(Repr - old(Repr))
      ensures Effect(signal, Abs()) == ScaleOfTop(old(Abs()))
    {
      var x := RootPop();
      match x
      case Nil =>
        return Fail(NilItem);
      case Some(Cmd(_)) =>
        return Fail(TypeMismatch('X'));
      case Some(Num(n)) =>
        RootPush(IntItem(n.scale));
        signal := Continue;
    }

    /** `i`, `o`, `k`. */
    method SetSettingOpcode(op: char) returns (signal: Signal)
      requires Valid() && IsSetting(op)
      modifies Repr
      ensures Valid() && Repr == old(Repr)
      ensures Effect(signal, Abs()) == SetSetting(old(Abs()), op)
    {
      var x := RootPop();
      match x
      case Nil =>
        return Fail(NilItem);
      case Some(Cmd(_)) =>
        return Fail(TypeMismatch(op));
      case Some(Num(n)) =>
        var v := RescaleNumber(n, 0);
        if op == 'i' {
          interpScale := v.number;
        } else if op == 'o' {
          outBase := v.number;
        } else {
          outScale := v.number;
        }
        signal := Continue;
    }

    /** `q`. */
    method QuitOpcode() returns (signal: Signal)
      requires Valid()
      modifies this
      ensures Valid() && Repr == old(Repr)
      ensures Effect(signal, Abs()) == QuitOp(old(Abs()))
    {
      interpLevel := interpLevel - 2;
      signal := if interpLevel < 0 then Leave else Continue;
    }

    /** `Q`. */
    method QuitLevelsOpcode() returns (signal: Signal)
      requires Valid()
      modifies Repr
      ensures Valid() && Repr == old(Repr)
      ensures Effect(signal, Abs()) == QuitLevels(old(Abs()))
    {
      var x := RootPop();
      match x
      case Nil =>
        return Fail(NilItem);
      case Some(Cmd(_)) =>
        return Fail(TypeMismatch('Q'));
      case Some(Num(n)) =>
        var v := RescaleNumber(n, 0);
        interpLevel := interpLevel - v.number;
        signal := if interpLevel < 0 then Leave else Continue;
    }

    // -------------------------------------------------------------------
    // Register opcodes

    /** The register with this name, or a new stack when it is missing. */
    method Register(name: char) returns (reg: StackVal)
      requires Valid()
      ensures reg == RegisterOr(Abs(), name)
    {
      NewStackShape();
      reg := if name in registers then registers[name] else NewStackVal();
    }

    /** `s`. */
    method StoreOpcode(name: char)
      requires Valid()
      modifies Repr
      ensures Valid() && Repr == old(Repr)
      ensures Abs() == Store(old(Abs()), name)
    {
      var reg := Register(name);
      var x := RootPop();
      PushOnTop(StackVal(reg.slots, 0), x);
      registers := registers[name := PushVal(StackVal(reg.slots, 0), x)];
    }

    /** `S`. */
    method StorePushOpcode(name: char)
      requires Valid()
      modifies Repr
      ensures Valid() && Repr == old(Repr)
      ensures Abs() == StorePush(old(Abs()), name)
    {
      var reg := Register(name);
      var x := RootPop();
      PushOnTop(reg, x);
      registers := registers[name := PushVal(reg, x)];
    }

    /** `l`. */
    method LoadOpcode(name: char)
      requires Valid()
      modifies Repr
      ensures Valid() && fresh(Repr - old(Repr))
      ensures Abs() == Load(old(Abs()), name)
    {
      var existed := name in registers;
      var reg := Register(name);
      var (x, reg2) := PopVal(StackVal(reg.slots, if existed then 1 else 0));
      RootPush(x);
      registers := registers[name := StackVal(reg2.slots, 1)];
    }

    /** `L`. */
    method LoadPopOpcode(name: char)
      requires Valid()
      modifies Repr
      ensures Valid() && fresh(Repr - old(Repr))
      ensures Abs() == LoadPop(old(Abs()), name)
    {
      var reg := Register(name);
      var (x, reg2) := PopVal(reg);
      RootPush(x);
      registers := registers[name := reg2];
    }
    /** `s`, `S`, `l`, `L`. */
    method RegisterOpcode(c: char, name: char)
      requires Valid() && IsRegisterOp(c)
      modifies Repr
      ensures Valid() && fresh(Repr - old(Repr))
      ensures Abs() == RegisterOp(old(Abs()), c, name)
    {
      if c == 's' {
        StoreOpcode(name);
      } else if c == 'S' {
        StorePushOpcode(name);
      } else if c == 'l' {
        LoadOpcode(name);
      } else {
        LoadPopOpcode(name);
      }
    }

    // -------------------------------------------------------------------
    // Interp

    /** The opcodes that read no more input and run nothing. */
    method ApplySimple(c: char) returns (signal: Signal)
      requires Valid()
      modifies Repr
      ensures Valid() && fresh(Repr - old(Repr))
      ensures Effect(signal, Abs()) == SimpleOp(old(Abs()), c)
    {
      if IsArithmetic(c) {
        signal := BinaryOpcode(c);
      } else if c == 'd' {
        signal := DuplicateOpcode();
      } else if c == 'p' {
        signal := PrintTopOpcode();
      } else if c == 'P' {
        signal := PrintStringOpcode();
      } else if c == 'f' {
        signal := PrintAllOpcode();
      } else if c == 'c' {
        ClearOpcode();
        signal := Continue;
      } else if c == 'z' || c == 'I' || c == 'O' {
        PushValueOpcode(c);
        signal := Continue;
      } else if c == 'X' {
        signal := ScaleOfTopOpcode();
      } else if IsSetting(c) {
        signal := SetSettingOpcode(c);
      } else if c == 'q' {
        signal := QuitOpcode();
      } else if c == 'Q' {
        signal := QuitLevelsOpcode();
      } else {
        signal := Continue;
      }
    }

    /** One activation of Interp: read runes from pos 0 and dispatch on
        each until the input ends or a step does not continue. */
    method Interp(input: string, fuel: nat) returns (signal: Signal, pos: nat)
      requires Valid()
      modifies Repr
      ensures Valid() && fresh(Repr - old(Repr))
      ensures Outcome(signal, Abs(), pos) == Run(old(Abs()), input, 0, fuel)
      decreases fuel, 3
    {
      pos := 0;
      while pos < |input|
        invariant Valid() && fresh(Repr - old(Repr))
        invariant pos <= |input|
        invariant Run(Abs(), input, pos, fuel) == Run(old(Abs()), input, 0, fuel)
        decreases |input| - pos
      {
        var s, next := Dispatch(input, pos, fuel);
        if s != Continue {
          return s, next;
        }
        pos := next;
      }
      signal := Continue;
    }

    /** The body of Interp's loop for the rune at pos. */
    method Dispatch(input: string, pos: nat, fuel: nat) returns (signal: Signal, next: nat)
      requires Valid() && pos < |input|
      modifies Repr
      ensures Valid() && fresh(Repr - old(Repr))
      ensures Outcome(signal, Abs(), next) == Step(old(Abs()), input, pos, fuel)
      decreases fuel, 2
    {
      var c := input[pos];
      if StartsNumber(c) {
        var r := ReadNumber(input, pos);
        if r.Err? {
          return Fail(r.error), pos + 1;
        }
        RootPush(Some(Num(r.value.0)));
        return Continue, r.value.1;
      } else if c == '[' {
        var r := ReadCommand(input, pos);
        if r.Err? {
          return Fail(r.error), pos + 1;
        }
        RootPush(Some(Cmd(r.value.0)));
        return Continue, r.value.1;
      } else if IsRegisterOp(c) {
        if pos + 1 == |input| {
          return Fail(EndOfInput), pos + 1;
        }
        RegisterOpcode(c, input[pos + 1]);
        return Continue, pos + 2;
      } else if IsConditional(c) {
        signal, next := ConditionalOp(input, pos, fuel);
      } else if c == 'x' {
        var x := RootPop();
        match x
        case Nil =>
          return Fail(NilItem), pos + 1;
        case Some(Num(_)) =>
          return Fail(TypeMismatch('x')), pos + 1;
        case Some(Cmd(text)) =>
          signal := RunNested(text, fuel);
          next := pos + 1;
      } else {
        signal := ApplySimple(c);
        next := pos + 1;
      }
    }

    /** `<`, `>`, `=`: run the command on top of the named register when
        the test holds. */
    method ConditionalOp(input: string, pos: nat, fuel: nat) returns (signal: Signal, next: nat)
      requires Valid() && pos < |input| && IsConditional(input[pos])
      modifies Repr
      ensures Valid() && fresh(Repr - old(Repr))
      ensures Outcome(signal, Abs(), next) == Conditional(old(Abs()), input, pos, fuel)
      decreases fuel, 1
    {
      var op := input[pos];
      var operands := PopOperandsOp(op);
      if operands.Err? {
        return Fail(operands.error), pos + 1;
      }
      if pos + 1 == |input| {
        return Fail(EndOfInput), pos + 1;
      }
      var name := input[pos + 1];
      if !Holds(op, operands.value.0, operands.value.1) {
        return Continue, pos + 2;
      }
      if name !in registers {
        return Fail(MissingRegister(name)), pos + 2;
      }
      var top := PeekVal(registers[name]);
      match top
      case Err(err) =>
        return Fail(err), pos + 2;
      case Ok(Num(_)) =>
        return Fail(TypeMismatch(op)), pos + 2;
      case Ok(Cmd(text)) =>
        signal := RunNested(text, fuel);
        next := pos + 2;
    }

    /** A nested call of Interp over a command's text. */
    method RunNested(text: string, fuel: nat) returns (signal: Signal)
      requires Valid()
      modifies Repr
      ensures Valid() && fresh(Repr - old(Repr))
      ensures Effect(signal, Abs()) == Nested(old(Abs()), text, fuel)
      decreases fuel, 0
    {
      if fuel == 0 {
        return Fail(OutOfFuel);
      }
      ghost var o := Run(Abs(), text, 0, fuel - 1);
      assert Nested(Abs(), text, fuel) == Effect(Resume(o.signal), o.m);
      var s, _ := Interp(text, fuel - 1);
      signal := Resume(s);
    }
  }

  /** main: a new machine runs the whole input. */
  method RunProgram(input: string, fuel: nat) returns (signal: Signal, m: Machine)
    ensures m.Valid()
    ensures signal == Program(input, fuel).signal && m.Abs() == Program(input, fuel).m
  {
    m := new Machine();
    var pos;
    signal, pos := m.Interp(input, fuel);
  }

  /** The arithmetic of an opcode, computed as Interp does it: through
      RescaleNumber, IntMax, IntMin and the loops of `^`. */
  method Compute(op: char, a: ScaledNumber, b: ScaledNumber, interpScale: int) returns (r: Result<ScaledNumber>)
    requires IsArithmetic(op)
    ensures r == Arithmetic(op, a, b, interpScale)
  {
    if op == '+' || op == '-' {
      var t := if a.scale > b.scale then a.scale else b.scale;
      var x := RescaleNumber(a, t);
      var y := RescaleNumber(b, t);
      r := Ok(ScaledNumber(if op == '+' then x.number + y.number else x.number - y.number, t));
    } else if op == '/' {
      var x := RescaleNumber(a, interpScale);
      var y := RescaleNumber(b, interpScale);
      if y.number == 0 {
        return Err(DivisionByZero);
      }
      r := Ok(ScaledNumber(Quot(x.number, y.number), interpScale));
    } else if op == '*' || op == '%' {
      var high := IntMax([interpScale, a.scale, b.scale]);
      var t := IntMin([a.scale + b.scale, high]);
      var x := RescaleNumber(a, t);
      var y := RescaleNumber(b, t);
      if op == '*' {
        r := Ok(ScaledNumber(x.number * y.number, t));
      } else if y.number == 0 {
        r := Err(DivisionByZero);
      } else {
        r := Ok(ScaledNumber(Rem(x.number, y.number), t));
      }
    } else {
      r := PowerLoops(a, b, interpScale);
    }
  }

  /** `^`, with its two loops. */
  method PowerLoops(a: ScaledNumber, b: ScaledNumber, interpScale: int) returns (r: Result<ScaledNumber>)
    ensures r == Power(a, b, interpScale)
  {
    var high := IntMax([interpScale, a.scale]);
    var t := IntMin([a.scale * Abs(b.scale), high]);
    var x := RescaleNumber(a, t);
    var y := RescaleNumber(b, 0);
    var p := x.number;
    if y.number >= 0 {
      var i := 0;
      while i < y.number
        invariant 0 <= i <= y.number
        invariant p == x.number * Pow(x.number, i)
      {
        p := p * x.number;
        i := i + 1;
        assert Pow(x.number, i) == x.number * Pow(x.number, i - 1);
      }
    } else {
      var i := 0;
      while i < Abs(y.number)
        invariant 0 <= i <= Abs(y.number)
        invariant x.number != 0 || i == 0
        invariant x.number != 0 ==> RepeatQuot(p, x.number, Abs(y.number) - i) == RepeatQuot(x.number, x.number, -y.number)
      {
        if x.number == 0 {
          return Err(DivisionByZero);
        }
        p := Quot(p, x.number);
        i := i + 1;
      }
    }
    r := Ok(ScaledNumber(p, t));
  }
}
