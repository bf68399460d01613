# A verified model of the goblin desk calculator (`dc`)

`src/dc/dc.go` is a small reverse-Polish desk calculator in Go. Its numbers
are scaled integers (an integer and a count of decimal places). Its stacks
are never empty: slot 0 always holds a numeric zero. Two lexers read
numeric literals and `[...]` command strings from a rune stream. `Interp`
is a dispatch loop that changes a root stack, a map of register stacks and
four settings: the input scale, the quit level, the output base and the
output scale. `Interp` calls itself to run commands for `x`, `<`, `>` and
`=`.

The model is split into modules:

- `Numbers` (numbers.dfy) covers these pieces.
  - `ScaledNumber`.
  - Go's truncating `/` and `%` (`Quot`, `Rem`).
  - `IntPower` as a loop and as a function.
  - `RescaleNumber`, `IntMax`, `IntMin` and `IntAbs`.
  - The exact comparison `Below` that models `<` and `>`.
- `Items` (items.dfy) covers `StackItem` and the slot of the stack's array (`Slot`), which may be nil.
- `Stacks` (stack.dfy) has two parts.
  - The stack as a value (`StackVal`, with `PushVal`, `PopVal` and `PeekVal`).
  - The `Stack` class: an `array` and a pointer that `Push` and `Pop` update in place.
- `Lexer` (lexer.dfy) covers `ReadNumber` and `ReadCommand`.
  - Each is an imperative method over the input string and a position.
  - Each is proved equal to a function (`LexNumber`, `LexCommand`) that says what it reads.
- `Semantics` (semantics.dfy) holds the interpreter's state as a value (`MachineVal`) and one function per opcode.
- `Execution` (execution.dfy) holds `Interp` as fuel-bounded mutually recursive functions: `Run`, `Step`, `Conditional` and `Nested`.
- `Machines` (machine.dfy) holds the `Machine` class.
  - Its fields are the Go globals, and its methods are the opcodes.
  - `Interp` is a `while` loop over the input.
  - `Interp` is proved to compute what `Execution.Run` says, through the abstraction `Abs()`.
- `Properties` (properties.dfy) holds the lemmas about the opcodes: arithmetic, registers, execution, quitting and the output opcodes.

## Behaviour modelled as the code does it

Each point below is a choice between the code and what its comments or
its name suggest. The model follows the code in every case but one: the
interpreter pushes with the corrected `Push` described under Findings.

- **Operand order.**
  - `a` is the top of the stack and `b` the item below it.
  - `-` computes a − b and `/` computes a / b.
  - `^` starts from `a` and multiplies by `a` b times, which gives a^(b+1) (`Properties.IntegerArithmetic`).
- **`RescaleNumber`** multiplies by `IntPower(10, newScale - scale)` and never updates `Scale`.
  - For a negative exponent, `IntPower(10, k)` is 0.
  - So rescaling down to a smaller scale zeroes the number.
  - This is what `i`, `o`, `k` and `Q` do to a number with a positive scale (`Properties.SetSettingValue`).
- **`*`, `/` and `%` at a non-zero scale** rescale both operands to the target scale first.
  - Then they multiply, divide or take the remainder of the integers.
  - So the result is off by a power of ten: `5.` reads as 5 at scale 1, that is 0.5 (`Properties.PointLiteralExample`).
  - And `5. 5. *` gives 25 at scale 1, that is 2.5 where 0.25 is meant (`Properties.ProductOffByPowerOfTen`).
- **The scale of a literal.**
  - `.` adds one to the scale, and so does every digit read after it.
  - So `2.5` reads as 25 at scale 2 (`Properties.DecimalLiteralExample`).
- **Digits.**
  - `Interp` hands every Unicode decimal digit (`unicode.Digit`) to `ReadNumber`.
  - `ReadNumber` takes only hexadecimal digits (`unicode.Hex_Digit`).
  - So a digit of another script, such as U+0663, reads an empty literal, and the parse fails (`Properties.ForeignDigitFails`).
  - Fullwidth digits are read, but `strconv.ParseInt` accepts only ASCII digits, so they fail to parse too.
  - A literal whose value lies outside int64 fails to parse (`Lexer.LiteralRoundTrip`).
- **`l` on a missing register** pushes the zero item and leaves that register's pointer at a slot that holds no item (`Properties.LoadMissing`).
- **Conditionals** look up the register without checking that it exists.
  - A missing register is a nil dereference: the error `MissingRegister`.
  - A nil slot in the register is the error `NilItem`.
- **`q` inside a command** ends only that nested activation, and the caller carries on (`Properties.NestedQuitResumes`).
- **Code that does not compile** is modelled by its evident intent.
  - `RescaleNumber` calls `intPower`; the model calls `IntPower`.
  - `Peek` uses an undeclared `j`; the model returns a copy of the top item, and a nil top panics.
- **A Go panic** becomes an `Err` result or a `Fail` signal.
  - Panics come from a nil item, a division by zero, or a missing register.
  - An error that `Interp` returns is also a `Fail` signal, with an `Error` kind.

## Model

| member | source | states |
|---|---|---|
| Numbers.Abs | src/dc/dc.go:168-174 | IntAbs: the result is non-negative and is n or −n |
| Numbers.Quot | src/dc/dc.go:390 | Go's truncating `/`; what it computes is stated by Numbers.QuotRem |
| Numbers.Rem | src/dc/dc.go:427 | Go's `%`; what it computes is stated by Numbers.QuotRem |
| Numbers.QuotRem | src/dc/dc.go:376-430 | Go's `/` and `%`: a = q·b + r, abs(r) < abs(b), and r has the sign of a |
| Numbers.IntPower | src/dc/dc.go:128-140 | the loop computes IntPowerValue: multiply y−1 times for y > 0, divide 1 − y times otherwise |
| Numbers.IntPowerAdd | src/dc/dc.go:128-134 | for exponents ≥ 1, IntPower(n, a + b) = IntPower(n, a) · IntPower(n, b) |
| Numbers.IntPowerZero | src/dc/dc.go:134-138 | IntPower(n, 0) = 1 for n ≠ 0 |
| Numbers.IntPowerNegative | src/dc/dc.go:134-138 | IntPower(n, y) = 0 for y < 0 and abs(n) ≥ 2 |
| Numbers.RepeatQuotVanishes | src/dc/dc.go:134-138 | dividing 0, 1 or −1 repeatedly by abs(n) ≥ 2 gives 0 |
| Numbers.Rescale | src/dc/dc.go:142-146 | RescaleNumber never changes the scale |
| Numbers.RescaleNumber | src/dc/dc.go:142-146 | the method computes Rescale |
| Numbers.RescaleUp | src/dc/dc.go:142-146 | up to a larger scale, the number is multiplied by 10^(s − scale) |
| Numbers.RescaleDown | src/dc/dc.go:142-146 | down to a smaller scale, the number becomes 0 |
| Numbers.RescaleSame | src/dc/dc.go:142-146 | rescaling to its own scale changes nothing |
| Numbers.RescaleToZero | src/dc/dc.go:142-146 | rescaling to 0 keeps an integer and zeroes anything with a positive scale |
| Numbers.MaxOf | src/dc/dc.go:148-156 | an upper bound of every argument that is one of them, or MinInt32 |
| Numbers.MinOf | src/dc/dc.go:158-166 | a lower bound of every argument that is one of them, or MaxInt32 |
| Numbers.IntMax | src/dc/dc.go:148-156 | the loop computes MaxOf |
| Numbers.IntMin | src/dc/dc.go:158-166 | the loop computes MinOf |
| Numbers.MaxOfThree | src/dc/dc.go:148-156 | with an argument at least MinInt32, IntMax of three is their maximum |
| Numbers.MinOfTwo | src/dc/dc.go:158-166 | with an argument at most MaxInt32, IntMin of two is their minimum |
| Numbers.Below | src/dc/dc.go:645-650 | the test of `<`; its meaning is stated by Numbers.BelowAtAnyScale and Numbers.BelowSameScale |
| Numbers.BelowAtAnyScale | src/dc/dc.go:645-650 | `<` compares the values Number/10^Scale: the same answer at every common scale |
| Numbers.BelowSameScale | src/dc/dc.go:645-650 | at equal scales, `<` compares the integers |
| Stacks.Grown | src/dc/dc.go:90-91 | growth gives a strictly larger capacity |
| Stacks.NewStackShape | src/dc/dc.go:67-83 | NewStack is well formed and holds exactly one item, the zero |
| Stacks.PushVal | src/dc/dc.go:85-99 | Push makes x the top, raises the pointer by one and keeps every other slot |
| Stacks.PushOnTop | src/dc/dc.go:85-99 | the visible contents after Push are the old contents plus x, and the stack stays well formed |
| Stacks.PopVal | src/dc/dc.go:101-113 | Pop returns the top slot and keeps the array and the stack's shape |
| Stacks.PopTop | src/dc/dc.go:101-113 | the pointer never goes below 0; popping the last item returns it and leaves one zero item |
| Stacks.PopFresh | src/dc/dc.go:101-113 | popping a fresh stack returns a zero and leaves a fresh stack |
| Stacks.FreshPopsZeroForever | src/dc/dc.go:67-83 | any number of pops of a fresh stack returns only zeros and leaves it fresh |
| Stacks.PeekVal | src/dc/dc.go:115-126 | Peek succeeds exactly when the top slot holds an item, and returns that item |
| Stacks.PushThenPeekAndPop | src/dc/dc.go:85-126 | after a push, Peek sees the item, and Pop returns it and restores the contents |
| Stacks.PushAsWritten | src/dc/dc.go:85-99 | Push as written (growth only past cap, copy the wrong way): when it does not panic it raises the pointer by one |
| Stacks.PushManyCapacity | src/dc/dc.go:75-99 | up to 99 pushes onto a fresh stack keep its 100 slots |
| Stacks.PushAsWrittenFailsOnFullStack | src/dc/dc.go:90-98 | the 100th push as written writes past the end; the corrected Push succeeds |
| Stacks.PushAsWrittenGrowthLosesItems | src/dc/dc.go:90-94 | whenever the growth branch as written runs, every old item is gone |
| Stacks.Stack.constructor | src/dc/dc.go:75-83 | NewStack: a fresh array whose value is NewStackVal |
| Stacks.Stack.Push | src/dc/dc.go:85-99 | the array update equals PushVal; the copying loop keeps every old item |
| Stacks.Stack.Pop | src/dc/dc.go:101-113 | the array update equals PopVal |
| Stacks.Stack.Peek | src/dc/dc.go:115-126 | Peek equals PeekVal and changes nothing |
| Lexer.DecimalHexDigits | src/dc/dc.go:205-206 | among the hex digits, the Unicode decimal digits are exactly the ASCII and fullwidth ones |
| Lexer.RunEnd | src/dc/dc.go:185-224 | the literal runs to the first rune that is not `_`, `.` or a hex digit |
| Lexer.BaseOf | src/dc/dc.go:205-208 | base 16 exactly when the run holds a hex letter, otherwise 10 |
| Lexer.ScaleOfCounts | src/dc/dc.go:200-211 | the scale is the number of dots plus the digits after the first dot |
| Lexer.NumTextShape | src/dc/dc.go:195-212 | numStr drops the dots and is all signs when the run has no digit |
| Lexer.NoDigitsFails | src/dc/dc.go:226-229 | a literal without a digit fails to parse |
| Lexer.LexNumber | src/dc/dc.go:176-237 | a literal that parses is left at the run's end, and it consumes at least one rune |
| Lexer.ReadNumber | src/dc/dc.go:176-237 | the reading loop computes LexNumber |
| Lexer.ScanNumber | src/dc/dc.go:185-224 | the loop stops at RunEnd, with numStr, scale and base equal to NumText, ScaleOf and BaseOf of the run |
| Lexer.Absorb | src/dc/dc.go:195-216 | one rune's effect on numStr, scale and base |
| Lexer.LiteralParts | src/dc/dc.go:176-237 | the literal of an integer is all literal runes, decimal and at scale 0 |
| Lexer.ParseInt | src/dc/dc.go:226 | strconv.ParseInt: a result is only given for a non-empty text, and it fits in an int64 |
| Lexer.LiteralRoundTrip | src/dc/dc.go:176-237 | an integer's literal reads back as that integer at scale 0, stopping right after it; outside int64 it fails to parse |
| Lexer.ParseDecimalText | src/dc/dc.go:226 | ParseInt in base 10 inverts the decimal text of an integer within int64, and refuses the rest |
| Lexer.FindClose | src/dc/dc.go:247-271 | the first `]` at or after the position |
| Lexer.LexCommand | src/dc/dc.go:239-288 | a command that reads ends past its start, within the input |
| Lexer.ReadCommand | src/dc/dc.go:239-288 | the reading loop computes LexCommand |
| Lexer.CommandShape | src/dc/dc.go:239-288 | fails without a leading `[` or without a `]`; on success the text has no brackets |
| Lexer.CommandRoundTrip | src/dc/dc.go:239-288 | a bracket-free text in brackets reads back as itself, stopping past the `]` |
| Semantics.Initial | src/dc/dc.go:36-41 | the globals as main sets them up: one zero item on the root |
| Semantics.PushRoot | src/dc/dc.go:85-99 | RootStack.Push pushes x and changes nothing else |
| Semantics.PopRoot | src/dc/dc.go:101-113 | RootStack.Pop returns the top and changes nothing else |
| Semantics.CheckOperands | src/dc/dc.go:333-335 | accepts exactly two numbers; a command on top is a type error |
| Semantics.Quotient | src/dc/dc.go:376-391 | fails exactly on a zero divisor after rescaling; the result has the input scale |
| Semantics.Remainder | src/dc/dc.go:412-429 | fails exactly on a zero divisor after rescaling; the result has the product scale |
| Semantics.Power | src/dc/dc.go:431-459 | fails exactly on a negative exponent with a zero base; the result has the power scale |
| Semantics.FirstNil | src/dc/dc.go:573-575 | the lowest nil slot: every slot below it holds an item |
| Semantics.FirstNilAt | src/dc/dc.go:573-575 | that index is unique |
| Semantics.BinaryOp | src/dc/dc.go:330-459 | the arithmetic opcodes keep the stacks well formed and never leave the activation; Properties.BinaryOpChecks and Properties.BinaryOpDepth state their effect |
| Semantics.Store | src/dc/dc.go:463-479 | `s` keeps the stacks well formed; Properties.StoreShape states its effect |
| Semantics.StorePush | src/dc/dc.go:480-495 | `S` keeps the stacks well formed; Properties.StorePushShape states its effect |
| Semantics.Load | src/dc/dc.go:496-515 | `l` keeps the stacks well formed; Properties.LoadExisting and Properties.LoadMissing state its effect |
| Semantics.LoadPop | src/dc/dc.go:516-530 | `L` keeps the stacks well formed; Properties.LoadPopShape states its effect |
| Semantics.Duplicate | src/dc/dc.go:532-544 | `d` keeps the stacks well formed and never leaves; Properties.DuplicateShape states its effect |
| Semantics.PrintTop | src/dc/dc.go:545-559 | `p` keeps the stacks well formed and never leaves; Properties.PrintTopReadsBack states its effect on integers |
| Semantics.PrintString | src/dc/dc.go:560-568 | `P` keeps the stacks well formed and never leaves; Properties.PrintStringShape states its effect |
| Semantics.PrintAll | src/dc/dc.go:569-587 | `f` keeps the stacks well formed and never leaves; Properties.PrintAllShape states its effect |
| Semantics.Clear | src/dc/dc.go:726-728 | `c` keeps the stacks well formed; Properties.ClearShape states its effect |
| Semantics.PushValue | src/dc/dc.go:737-774 | `z`, `I` and `O` keep the stacks well formed; Properties.DepthShape, Properties.InputScaleRoundTrip and Properties.OutputBaseRoundTrip state their effect |
| Semantics.ScaleOfTop | src/dc/dc.go:622-632 | `X` keeps the stacks well formed and never leaves; Properties.ScaleOfTopShape states its effect |
| Semantics.SetSetting | src/dc/dc.go:729-767 | `i`, `o` and `k` keep the stacks well formed and never leave; Properties.SetSettingValue states their effect |
| Semantics.QuitOp | src/dc/dc.go:588-593 | `q` lowers the level by 2, and leaves exactly when it goes below 0 |
| Semantics.QuitLevels | src/dc/dc.go:595-607 | `Q` keeps the stacks well formed; Properties.QuitLevelsShape states its effect |
| Semantics.Holds | src/dc/dc.go:633-722 | the tests of `<`, `>` and `=`; their meaning is stated by Properties.HoldsMeaning |
| Execution.Resume | src/dc/dc.go:617-620 | a nested activation's error is passed up; its end lets the caller continue |
| Execution.Run | src/dc/dc.go:292-785 | an activation continues only if it reads to the end of its input |
| Execution.Step | src/dc/dc.go:295-328 | each pass of the loop consumes at least one rune |
| Execution.Nested | src/dc/dc.go:614-620 | a nested Interp keeps the stacks well formed and never leaves its caller; Properties.NestedFuel and Properties.NestedQuitResumes state more |
| Execution.Conditional | src/dc/dc.go:633-722 | `<`, `>` and `=` keep the stacks well formed and consume the opcode and, when present, the register name; Properties.ConditionalShape states each case |
| Execution.Program | src/dc/dc.go:787-816 | main runs Interp from the initial state and ends with well-formed stacks; Properties.ProgramFuel and Properties.QuitAtTopLevel state more |
| Properties.SumIsExact | src/dc/dc.go:330-351 | `+` adds both operands written at the larger scale |
| Properties.DifferenceIsExact | src/dc/dc.go:353-374 | `-` subtracts the second operand from the top one, at the larger scale |
| Properties.ProductScaleBounds | src/dc/dc.go:402 | the scale of `*` and `%` is min(a.s + b.s, max(InterpScale, a.s, b.s)) |
| Properties.IntegerArithmetic | src/dc/dc.go:330-459 | on integers, the opcodes are a+b, a−b, a·b, Go's a/b and a%b, and a^(b+1) |
| Properties.BinaryOpChecks | src/dc/dc.go:330-335 | the top item is checked first; success exactly when the arithmetic succeeds |
| Properties.BinaryOpDepth | src/dc/dc.go:330-459 | success replaces the top two items by the result and keeps the items below |
| Properties.RegisterOpCreates | src/dc/dc.go:463-530 | each of `s`, `S`, `l` and `L` creates its register, and no other |
| Properties.RegisterOpFrame | src/dc/dc.go:463-530 | they change only the root and that register |
| Properties.StoreShape | src/dc/dc.go:463-479 | `s` resets the register to the zero with the popped item on top |
| Properties.StorePushShape | src/dc/dc.go:480-495 | `S` pushes the popped item onto the register |
| Properties.LoadPopShape | src/dc/dc.go:516-530 | `L` pops the register's top onto the root |
| Properties.LoadExisting | src/dc/dc.go:496-515 | `l` copies slot 1 onto the root and leaves the register's pointer at 1 |
| Properties.LoadMissing | src/dc/dc.go:505-515 | `l` on a missing register pushes a zero, and the register shows a nil slot |
| Properties.StoreThenLoad | src/dc/dc.go:463-515 | `s` then `l` restores the root, and `l` leaves the register as `s` made it |
| Properties.StorePushThenLoadPop | src/dc/dc.go:480-530 | `S` then `L` restores both the root and the register |
| Properties.RunFuel | src/dc/dc.go:292-785 | a run that does not run out of fuel has the same outcome with more fuel |
| Properties.ProgramFuel | src/dc/dc.go:292-785 | the same for a whole program |
| Properties.ExecuteChecks | src/dc/dc.go:608-621 | `x` fails on nil or a number; otherwise it runs the command nested on the popped state, ends in the state the command left, and never leaves the caller |
| Properties.ExecuteWritten | src/dc/dc.go:608-621 | `[T]x` runs T nested on the same state, then goes on after the `x` |
| Properties.QuitAtTopLevel | src/dc/dc.go:588-593 | a leading `q` ends the program, at level −2 |
| Properties.NestedQuitResumes | src/dc/dc.go:588-621 | `q` inside a command ends only that command |
| Properties.QuitLevelsShape | src/dc/dc.go:595-607 | `Q` lowers the level by the popped integer and leaves exactly when it goes below 0 |
| Properties.QuitTwoLevelsIsQuit | src/dc/dc.go:588-607 | `2Q` is `q` |
| Properties.HoldsMeaning | src/dc/dc.go:633-722 | `<` and `>` compare values exactly; `=` wants the same scale and integer |
| Properties.ConditionalShape | src/dc/dc.go:633-722 | operands checked, name read, command run only when the test holds; a missing register, a nil top and a number on top each fail, with the state after the pops |
| Properties.DecimalLiteralExample | src/dc/dc.go:200-212 | `2.5` reads as 25 at scale 2 |
| Properties.HexLiteralExample | src/dc/dc.go:195-212 | `_1f` reads as −31 in base 16 |
| Properties.PointLiteralExample | src/dc/dc.go:200-212 | `5.` reads as 5 at scale 1 |
| Properties.ProductOffByPowerOfTen | src/dc/dc.go:393-410 | 5 at scale 1 times itself is 25 at scale 1 |
| Properties.ForeignDigitFails | src/dc/dc.go:305-313 | a Unicode decimal digit that is not a hex digit starts a literal that fails to parse |
| Properties.DuplicateShape | src/dc/dc.go:532-544 | `d` pushes a copy of the top and changes nothing else |
| Properties.PrintTopReadsBack | src/dc/dc.go:545-559 | `p` prints text that parses back to the integer (within int64), then a newline, and keeps the stack |
| Properties.PrintStringShape | src/dc/dc.go:560-568 | `P` pops a command and prints its text; a number is refused |
| Properties.PrintAllShape | src/dc/dc.go:569-587 | `f` keeps the stack and goes on exactly when no slot is nil |
| Properties.ClearShape | src/dc/dc.go:726-728 | `c` leaves only the zero item and changes nothing else |
| Properties.DepthShape | src/dc/dc.go:768-774 | `z` pushes the number of items above the base zero |
| Properties.ScaleOfTopShape | src/dc/dc.go:622-632 | `X` replaces the top number by its scale |
| Properties.SetSettingValue | src/dc/dc.go:729-767 | `i`, `o` and `k` take an integer as it is, and a number at a positive scale as 0 |
| Properties.InputScaleRoundTrip | src/dc/dc.go:729-743 | `i` then `I` restores the root |
| Properties.OutputBaseRoundTrip | src/dc/dc.go:744-759 | `o` then `O` restores the root |
| Machines.Machine.constructor | src/dc/dc.go:787-791 | the state main sets up, as Semantics.Initial |
| Machines.Machine.BinaryOpcode | src/dc/dc.go:330-459 | the in-place update equals BinaryOp on the old state |
| Machines.Machine.StoreOpcode | src/dc/dc.go:463-479 | the in-place update equals Store |
| Machines.Machine.StorePushOpcode | src/dc/dc.go:480-495 | the in-place update equals StorePush |
| Machines.Machine.LoadOpcode | src/dc/dc.go:496-515 | the in-place update equals Load |
| Machines.Machine.LoadPopOpcode | src/dc/dc.go:516-530 | the in-place update equals LoadPop |
| Machines.Machine.DuplicateOpcode | src/dc/dc.go:532-544 | the in-place update equals Duplicate |
| Machines.Machine.PrintTopOpcode | src/dc/dc.go:545-559 | the in-place update equals PrintTop |
| Machines.Machine.PrintStringOpcode | src/dc/dc.go:560-568 | the in-place update equals PrintString |
| Machines.Machine.PrintAllOpcode | src/dc/dc.go:569-587 | the loop over the slots computes PrintAll: Listing up to the first nil slot |
| Machines.Machine.ClearOpcode | src/dc/dc.go:726-728 | the in-place update equals Clear |
| Machines.Machine.PushValueOpcode | src/dc/dc.go:737-774 | `z`, `I` and `O` as PushValue |
| Machines.Machine.ScaleOfTopOpcode | src/dc/dc.go:622-632 | the in-place update equals ScaleOfTop |
| Machines.Machine.SetSettingOpcode | src/dc/dc.go:729-767 | `i`, `o` and `k` as SetSetting |
| Machines.Machine.QuitOpcode | src/dc/dc.go:588-593 | the in-place update equals QuitOp |
| Machines.Machine.QuitLevelsOpcode | src/dc/dc.go:595-607 | the in-place update equals QuitLevels |
| Machines.Machine.Interp | src/dc/dc.go:292-785 | the dispatch loop computes Execution.Run from position 0 |
| Machines.Machine.Dispatch | src/dc/dc.go:305-784 | one pass of the loop computes Execution.Step |
| Machines.Machine.ConditionalOp | src/dc/dc.go:633-722 | `<`, `>` and `=` compute Execution.Conditional |
| Machines.Machine.RunNested | src/dc/dc.go:614-620 | the nested Interp call computes Execution.Nested |
| Machines.RunProgram | src/dc/dc.go:787-816 | a new machine running the input ends as Execution.Program says |
| Machines.Compute | src/dc/dc.go:330-459 | the arithmetic, through RescaleNumber, IntMax and IntMin, equals Arithmetic |
| Machines.PowerLoops | src/dc/dc.go:431-459 | the two loops of `^` compute Power |

## Left out

- `main`'s file and stdin handling, and the `Log`/`LogOut` debug ring buffer, are I/O. The input is a string, and output is a sequence of `Out` values rather than standard output.
- `p` and `f` print a number with a non-zero scale as a Go float. The model records such a number as `Fixed(n)` and does not model the float text.
- `<` and `>` compare float64 values. The model compares the exact values Number/10^Scale (`Below`), so rounding is not modelled.
- The growth factor 1.2 is a float multiply. It is modelled as the integer ⌊6·cap/5⌋.
- `int64` and `int32` wrap-around is not modelled. Integers are unbounded and conversions such as `int32(...)` do not truncate. Only the literal parser keeps to the int64 range, as `strconv.ParseInt` does.
- `unicode.Digit` is modelled as the decimal digits of Unicode 15.0. A Go release built on another Unicode version may differ.
- The interpreter pushes with the corrected `Push` (`Stacks.PushVal`: grow when `Pointer+1 >= cap`, and copy the old items into the new array), as Findings explains. The panic that the code as written hits on a stack's 100th item is modelled only by `Stacks.PushAsWritten`, so `Execution.Run` never fails with `IndexOutOfRange`.
- Items are values, not pointers, so aliasing is not modelled.
  - After `l`, the root and the register share one item.
  - `i`, `o`, `k` and `Q` rescale the popped item in place.
  - `X` rewrites the popped item in place. So `5sa la X la p` prints 0 in the source, since the register's item was rewritten too, and 5 in the model.
  - None of this is visible in a value model.
- `Machines.Machine`: the register stacks are `StackVal` values that each opcode reassigns, not `Stack` objects updated in place. The root stack is an in-place `Stack`.
- `Execution.Run`: the depth of nested activations is bounded by a fuel parameter. Running out gives `Fail(OutOfFuel)`. `Properties.RunFuel` shows that fuel changes nothing else.
- The reader's position after an error is not modelled: `Interp` returns at once, and nothing reads the rest.
- Error messages are collapsed into `Error` kinds.
- `v`, `!`, `Z`, `?` and runes with no opcode consume one rune and change nothing, as in the source.

## Findings

| source | as written | input that shows it | evidently intended | confidence | as-written member | corrected member |
|---|---|---|---|---|---|---|
| src/dc/dc.go:90 | grows only when `Pointer+1 > cap`, then writes slot `Pointer+1`, which is past the end when `Pointer+1 == cap` | 100 pushes onto a fresh stack of 100 slots | grow when `Pointer+1 >= cap` | not executed | Stacks.PushAsWrittenFailsOnFullStack | Stacks.PushOnTop |
| src/dc/dc.go:91-93 | swaps the new array in, then copies it over the old one, so the stack keeps only nil slots | none as written: the push at `Pointer+1 == cap` panics before the test at line 90 can hold, so the defect is latent; once that test is corrected to `>=`, the 100th push onto a fresh stack | copy the old items into the new array | not executed | Stacks.PushAsWrittenGrowthLosesItems | Stacks.Stack.Push |
