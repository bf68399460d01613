/** The two lexers over the program text: ReadNumber for numeric literals and
    ReadCommand for bracketed command strings, with the integer parser they
    rely on (strconv.ParseInt) and the decimal text `p` prints. A reader is
    the text and the index of the next rune; UnreadRune steps back by one. */
module Lexer {
  import opened Numbers
  import opened Items

  /** unicode.Hex_Digit: the ASCII hexadecimal digits and their fullwidth forms. */
  predicate IsHexDigit(c: char)
  {
    ('0' <= c <= '9') || ('a' <= c <= 'f') || ('A' <= c <= 'F') ||
    ('\U{FF10}' <= c <= '\U{FF19}') || ('\U{FF21}' <= c <= '\U{FF26}') || ('\U{FF41}' <= c <= '\U{FF46}')
  }

  /** unicode.Digit: the decimal digits of Unicode 15.0 (category Nd). All
      but the ASCII ones lie at U+0660 or above. */
  predicate IsUnicodeDigit(c: char)
  {
    ('0' <= c <= '9') || (c as int >= 0x660 && IsOtherScriptDigit(c as int))
  }

  /** The code points of the non-ASCII decimal digits, range by range. */
  predicate IsOtherScriptDigit(n: int)
  {
    (0x660 <= n <= 0x669) || (0x6F0 <= n <= 0x6F9) || (0x7C0 <= n <= 0x7C9) || (0x966 <= n <= 0x96F) ||
    (0x9E6 <= n <= 0x9EF) || (0xA66 <= n <= 0xA6F) || (0xAE6 <= n <= 0xAEF) || (0xB66 <= n <= 0xB6F) ||
    (0xBE6 <= n <= 0xBEF) || (0xC66 <= n <= 0xC6F) || (0xCE6 <= n <= 0xCEF) || (0xD66 <= n <= 0xD6F) ||
    (0xDE6 <= n <= 0xDEF) || (0xE50 <= n <= 0xE59) || (0xED0 <= n <= 0xED9) || (0xF20 <= n <= 0xF29) ||
    (0x1040 <= n <= 0x1049) || (0x1090 <= n <= 0x1099) || (0x17E0 <= n <= 0x17E9) || (0x1810 <= n <= 0x1819) ||
    (0x1946 <= n <= 0x194F) || (0x19D0 <= n <= 0x19D9) || (0x1A80 <= n <= 0x1A89) || (0x1A90 <= n <= 0x1A99) ||
    (0x1B50 <= n <= 0x1B59) || (0x1BB0 <= n <= 0x1BB9) || (0x1C40 <= n <= 0x1C49) || (0x1C50 <= n <= 0x1C59) ||
    (0xA620 <= n <= 0xA629) || (0xA8D0 <= n <= 0xA8D9) || (0xA900 <= n <= 0xA909) || (0xA9D0 <= n <= 0xA9D9) ||
    (0xA9F0 <= n <= 0xA9F9) || (0xAA50 <= n <= 0xAA59) || (0xABF0 <= n <= 0xABF9) || (0xFF10 <= n <= 0xFF19) ||
    (0x104A0 <= n <= 0x104A9) || (0x10D30 <= n <= 0x10D39) || (0x11066 <= n <= 0x1106F) || (0x110F0 <= n <= 0x110F9) ||
    (0x11136 <= n <= 0x1113F) || (0x111D0 <= n <= 0x111D9) || (0x112F0 <= n <= 0x112F9) || (0x11450 <= n <= 0x11459) ||
    (0x114D0 <= n <= 0x114D9) || (0x11650 <= n <= 0x11659) || (0x116C0 <= n <= 0x116C9) || (0x11730 <= n <= 0x11739) ||
    (0x118E0 <= n <= 0x118E9) || (0x11950 <= n <= 0x11959) || (0x11C50 <= n <= 0x11C59) || (0x11D50 <= n <= 0x11D59) ||
    (0x11DA0 <= n <= 0x11DA9) || (0x11F50 <= n <= 0x11F59) || (0x16A60 <= n <= 0x16A69) || (0x16AC0 <= n <= 0x16AC9) ||
    (0x16B50 <= n <= 0x16B59) || (0x1D7CE <= n <= 0x1D7FF) || (0x1E140 <= n <= 0x1E149) || (0x1E2F0 <= n <= 0x1E2F9) ||
    (0x1E4F0 <= n <= 0x1E4F9) || (0x1E950 <= n <= 0x1E959) || (0x1FBF0 <= n <= 0x1FBF9)
  }

  /** The decimal digits that are also hexadecimal digits: the ASCII and
      the fullwidth ones (DecimalHexDigits below). */
  predicate IsDecimalDigit(c: char)
  {
    ('0' <= c <= '9') || ('\U{FF10}' <= c <= '\U{FF19}')
  }

  /** A hexadecimal digit that is not a Unicode decimal digit: it switches
      the literal to base 16. */
  predicate IsHexLetter(c: char)
  {
    IsHexDigit(c) && !IsDecimalDigit(c)
  }

  /** The ASCII and fullwidth decimal digits are Unicode decimal digits,
      and they are the only hexadecimal digits that are. */
  lemma DecimalHexDigits(c: char)
    ensures IsDecimalDigit(c) ==> IsUnicodeDigit(c)
    ensures IsHexDigit(c) ==> (IsUnicodeDigit(c) <==> IsDecimalDigit(c))
  {
  }

  /** A rune ReadNumber consumes. */
  predicate InNumber(c: char)
  {
    c == '_' || c == '.' || IsHexDigit(c)
  }

  // ---------------------------------------------------------------------
  // strconv.ParseInt for bases 10 and 16, with bit size 64

  const MinInt64: int := -0x8000_0000_0000_0000
  const MaxInt64: int := 0x7fff_ffff_ffff_ffff

  predicate IsInt64(v: int)
  {
    MinInt64 <= v <= MaxInt64
  }

  /** The value of an ASCII digit or letter, 36 for any other rune. */
  function DigitValue(c: char): (v: nat)
    ensures v <= 36
  {
    if '0' <= c <= '9' then c as int - '0' as int
    else if 'a' <= c <= 'z' then c as int - 'a' as int + 10
    else if 'A' <= c <= 'Z' then c as int - 'A' as int + 10
    else 36
  }

  predicate AllDigits(s: string, base: nat)
  {
    forall k | 0 <= k < |s| :: DigitValue(s[k]) < base
  }

  /** The value of a digit string, the last digit the least significant. */
  function DigitsValue(s: string, base: nat): nat
  {
    if s == [] then 0 else DigitsValue(s[..|s| - 1], base) * base + DigitValue(s[|s| - 1])
  }

  /** strconv.ParseInt(s, base, 64): an optional sign, then at least one
      digit of the base, and a value that fits in an int64. */
  function ParseInt(s: string, base: nat): (r: Result<int>)
    ensures r.Ok? ==> s != [] && IsInt64(r.value)
  {
    if s == [] then Err(ParseFailure)
    else if s[0] == '-' || s[0] == '+' then
      if |s| > 1 && AllDigits(s[1..], base) then
        var v: int := DigitsValue(s[1..], base);
        InRange(if s[0] == '-' then -v else v)
      else Err(ParseFailure)
    else if AllDigits(s, base) then InRange(DigitsValue(s, base))
    else Err(ParseFailure)
  }

  /** ParseInt's range error: a value outside int64 is refused. */
  function InRange(v: int): (r: Result<int>)
  {
    if IsInt64(v) then Ok(v) else Err(ParseFailure)
  }

  // ---------------------------------------------------------------------
  // Decimal text, as fmt's %d writes an integer

  function DigitChar(d: nat): (c: char)
    requires d < 10
    ensures DigitValue(c) == d && IsDecimalDigit(c)
  {
    ['0', '1', '2', '3', '4', '5', '6', '7', '8', '9'][d]
  }

  /** The decimal digits of a natural number, without leading zeros. */
  function NatText(n: nat): (s: string)
    ensures |s| >= 1 && AllDigits(s, 10)
    ensures forall k | 0 <= k < |s| :: IsDecimalDigit(s[k])
  {
    if n < 10 then [DigitChar(n)] else NatText(n / 10) + [DigitChar(n % 10)]
  }

  /** %d: a minus sign for negative numbers, then the digits. */
  function DecimalText(n: int): string
  {
    if n < 0 then "-" + NatText(-n) else NatText(n)
  }

  lemma {:induction false} NatTextValue(n: nat)
    ensures DigitsValue(NatText(n), 10) == n
  {
    if n >= 10 {
      NatTextValue(n / 10);
      var s := NatText(n);
      assert s[..|s| - 1] == NatText(n / 10);
    }
  }

  /** Parsing what %d prints gives the number back when it fits in an
      int64, and the range error when it does not. */
  lemma ParseDecimalText(n: int)
    ensures ParseInt(DecimalText(n), 10) == InRange(n)
  {
    if n < 0 {
      var m: nat := -n;
      ParseNegative(m);
      assert DecimalText(n) == "-" + NatText(m) && -(m as int) == n;
    } else {
      ParseNatText(n);
      assert DecimalText(n) == NatText(n);
    }
  }

  lemma ParseNatText(m: nat)
    ensures ParseInt(NatText(m), 10) == InRange(m)
  {
    var s := NatText(m);
    NatTextValue(m);
    assert DigitValue(s[0]) < 10;
    assert s[0] != '-' && s[0] != '+';
  }

  lemma ParseNegative(m: nat)
    requires m > 0
    ensures ParseInt("-" + NatText(m), 10) == InRange(-(m as int))
  {
    var digits := NatText(m);
    var s := "-" + digits;
    NatTextValue(m);
    assert s[0] == '-' && s[1..] == digits;
  }

  // ---------------------------------------------------------------------
  // ReadNumber

  /** The index where a literal starting at pos ends: the first rune that is
      not '_', '.' or a hexadecimal digit, or the end of the input. */
  function RunEnd(input: string, pos: nat): (e: nat)
    requires pos <= |input|
    ensures pos <= e <= |input|
    ensures forall k | pos <= k < e :: InNumber(input[k])
    ensures e < |input| ==> !InNumber(input[e])
    decreases |input| - pos
  {
    if pos == |input| || !InNumber(input[pos]) then pos else RunEnd(input, pos + 1)
  }

  /** What one rune adds to numStr: '-' for '_', nothing for '.', itself otherwise. */
  function Piece(c: char): string
  {
    if c == '_' then "-" else if c == '.' then "" else [c]
  }

  /** numStr after reading a run of literal runes. */
  function NumText(run: string): string
  {
    if run == [] then "" else NumText(run[..|run| - 1]) + Piece(run[|run| - 1])
  }

  /** scale after one more rune: '.' adds one, and so does a hexadecimal
      digit once the scale is positive. */
  function ScaleStep(scale: nat, c: char): nat
  {
    if c == '.' then scale + 1
    else if IsHexDigit(c) && scale > 0 then scale + 1
    else scale
  }

  /** scale after reading a run of literal runes. */
  function ScaleOf(run: string): nat
  {
    if run == [] then 0 else ScaleStep(ScaleOf(run[..|run| - 1]), run[|run| - 1])
  }

  /** The base: 16 exactly when the run holds a non-decimal hexadecimal digit. */
  function BaseOf(run: string): (b: nat)
    ensures b == 16 <==> exists k | 0 <= k < |run| :: IsHexLetter(run[k])
    ensures b == 10 || b == 16
  {
    if exists k | 0 <= k < |run| :: IsHexLetter(run[k]) then 16 else 10
  }

  /** The literal starting at pos: its number and the index of the first rune
      after it (the rune it stopped at is left unread). */
  function LexNumber(input: string, pos: nat): (r: Result<(ScaledNumber, nat)>)
    requires pos <= |input|
    ensures r.Ok? ==> r.value.1 == RunEnd(input, pos)
    ensures r.Ok? ==> pos < r.value.1
  {
    var e := RunEnd(input, pos);
    var run := input[pos..e];
    match ParseInt(NumText(run), BaseOf(run))
    case Err(_) => Err(ParseFailure)
    case Ok(v) => Ok((ScaledNumber(v, ScaleOf(run)), e))
  }

  /** ReadNumber: scan the literal, then parse its digits. */
  method ReadNumber(input: string, pos: nat) returns (res: Result<(ScaledNumber, nat)>)
    requires pos <= |input|
    ensures res == LexNumber(input, pos)
  {
    var numStr, scale, base, i := ScanNumber(input, pos);
    var parsed := ParseInt(numStr, base);
    if parsed.Err? {
      return Err(ParseFailure);
    }
    res := Ok((ScaledNumber(parsed.value, scale), i));
  }

  /** The loop of ReadNumber over the runes of the literal; the rune that
      ends it is unread. */
  method ScanNumber(input: string, pos: nat) returns (numStr: string, scale: nat, base: nat, i: nat)
    requires pos <= |input|
    ensures i == RunEnd(input, pos)
    ensures numStr == NumText(input[pos..i]) && scale == ScaleOf(input[pos..i]) && base == BaseOf(input[pos..i])
  {
    numStr := "";
    scale := 0;
    base := 10;
    var eofReached := false;
    i := pos;
    ghost var end := pos;
    while true
      invariant pos <= i <= |input|
      invariant forall k | pos <= k < i :: InNumber(input[k])
      invariant numStr == NumText(input[pos..i])
      invariant scale == ScaleOf(input[pos..i])
      invariant base == BaseOf(input[pos..i])
      decreases |input| - i
    {
      if i == |input| {
        end := i;
        eofReached := true;
        break;
      }
      var next := input[i];
      if !InNumber(next) {
        end := i;
        i := i + 1;
        break;
      }
      ExtendRun(input, pos, i);
      numStr, scale, base := Absorb(numStr, scale, base, next);
      i := i + 1;
    }
    if !eofReached {
      i := i - 1;
    }
    assert i == end;
    RunEndUnique(input, pos, i);
  }

  /** One pass of ReadNumber's loop over a rune of the literal: '_' adds a
      minus sign, '.' raises the scale, a hexadecimal digit is appended (and
      raises the scale after a '.', and makes the base 16 when it is a
      letter). */
  method Absorb(numStr: string, scale: nat, base: nat, next: char) returns (numStr': string, scale': nat, base': nat)
    requires InNumber(next)
    ensures numStr' == numStr + Piece(next)
    ensures scale' == ScaleStep(scale, next)
    ensures base' == if IsHexLetter(next) then 16 else base
  {
    numStr', scale', base' := numStr, scale, base;
    if next == '_' {
      numStr' := numStr + "-";
      return;
    }
    if next == '.' {
      scale' := scale + 1;
      return;
    }
    if !IsDecimalDigit(next) {
      base' := 16;
    }
    if scale > 0 {
      scale' := scale + 1;
    }
    numStr' := numStr + [next];
  }

  /** Reading one more rune extends numStr, scale and base by that rune. */
  lemma ExtendRun(input: string, pos: nat, i: nat)
    requires pos <= i < |input|
    ensures NumText(input[pos..i + 1]) == NumText(input[pos..i]) + Piece(input[i])
    ensures ScaleOf(input[pos..i + 1]) == ScaleStep(ScaleOf(input[pos..i]), input[i])
    ensures BaseOf(input[pos..i + 1]) == if IsHexLetter(input[i]) then 16 else BaseOf(input[pos..i])
  {
    var run := input[pos..i + 1];
    assert run[..|run| - 1] == input[pos..i];
    assert forall k | 0 <= k < i - pos :: run[k] == input[pos..i][k];
  }

  /** The end of a run is the only index with literal runes before it and a
      non-literal rune or the end of the input at it. */
  lemma {:induction false} RunEndUnique(input: string, pos: nat, e: nat)
    requires pos <= e <= |input|
    requires forall k | pos <= k < e :: InNumber(input[k])
    requires e < |input| ==> !InNumber(input[e])
    ensures RunEnd(input, pos) == e
    decreases e - pos
  {
    if pos < e {
      RunEndUnique(input, pos + 1, e);
    }
  }

  // ---------------------------------------------------------------------
  // Properties of the numeric lexer

  function CountDots(run: string): nat
  {
    if run == [] then 0 else CountDots(run[..|run| - 1]) + (if run[|run| - 1] == '.' then 1 else 0)
  }

  /** The number of hexadecimal digits of the run that come after its first '.'. */
  function DigitsAfterDot(run: string): nat
  {
    if run == [] then 0
    else DigitsAfterDot(run[..|run| - 1]) +
         (if IsHexDigit(run[|run| - 1]) && CountDots(run[..|run| - 1]) > 0 then 1 else 0)
  }

  /** The scale of a literal: one for every '.', plus one for every
      hexadecimal digit read after the first '.'. */
  lemma {:induction false} ScaleOfCounts(run: string)
    ensures ScaleOf(run) == CountDots(run) + DigitsAfterDot(run)
    ensures ScaleOf(run) > 0 <==> CountDots(run) > 0
  {
    if run != [] {
      ScaleOfCounts(run[..|run| - 1]);
    }
  }

  function CountDigits(run: string): nat
  {
    if run == [] then 0 else CountDigits(run[..|run| - 1]) + (if IsHexDigit(run[|run| - 1]) then 1 else 0)
  }

  /** numStr holds a '-' for every '_' and every hexadecimal digit, in order. */
  lemma {:induction false} NumTextShape(run: string)
    requires forall k | 0 <= k < |run| :: InNumber(run[k])
    ensures |NumText(run)| == |run| - CountDots(run)
    ensures CountDigits(run) == 0 ==> forall k | 0 <= k < |NumText(run)| :: NumText(run)[k] == '-'
    ensures CountDigits(run) > 0 ==> exists k | 0 <= k < |NumText(run)| :: NumText(run)[k] != '-'
  {
    if run != [] {
      var init := run[..|run| - 1];
      assert forall k | 0 <= k < |init| :: init[k] == run[k];
      NumTextShape(init);
      var c := run[|run| - 1];
      assert NumText(run) == NumText(init) + Piece(c);
      if CountDigits(run) > 0 && CountDigits(init) > 0 {
        var k :| 0 <= k < |NumText(init)| && NumText(init)[k] != '-';
        assert NumText(run)[k] != '-';
      }
      if CountDigits(run) > 0 && CountDigits(init) == 0 {
        assert NumText(run)[|NumText(run)| - 1] == c;
      }
    }
  }

  /** A literal without a single digit ("_", ".", "_._", or nothing at all)
      does not parse. */
  lemma NoDigitsFails(input: string, pos: nat)
    requires pos <= |input|
    requires CountDigits(input[pos..RunEnd(input, pos)]) == 0
    ensures LexNumber(input, pos) == Err(ParseFailure)
  {
    var run := input[pos..RunEnd(input, pos)];
    NumTextShape(run);
    var s := NumText(run);
    if |s| > 1 {
      assert s[1..][0] == '-';
    }
  }

  /** How `p` would print n if `_` were its minus sign: the text a program
      writes to push n. */
  function LiteralText(n: int): string
  {
    if n < 0 then "_" + NatText(-n) else NatText(n)
  }

  lemma {:induction false} DigitsOnlyRun(s: string)
    requires forall k | 0 <= k < |s| :: IsDecimalDigit(s[k])
    ensures NumText(s) == s && ScaleOf(s) == 0 && CountDots(s) == 0
  {
    if s != [] {
      DigitsOnlyRun(s[..|s| - 1]);
    }
  }

  /** The parts of the literal of n: it is made of literal runes, maps to
      the %d text of n, and has scale 0 and base 10. */
  lemma LiteralParts(n: int)
    ensures forall k | 0 <= k < |LiteralText(n)| :: InNumber(LiteralText(n)[k])
    ensures NumText(LiteralText(n)) == DecimalText(n)
    ensures ScaleOf(LiteralText(n)) == 0 && BaseOf(LiteralText(n)) == 10
  {
    if n < 0 {
      NegativeLiteralParts(-n);
    } else {
      var t := NatText(n);
      DigitsOnlyRun(t);
      assert forall k | 0 <= k < |t| :: !IsHexLetter(t[k]) && InNumber(t[k]);
    }
  }

  /** The same for the literal "_" + digits of a negative number. */
  lemma NegativeLiteralParts(m: nat)
    requires m > 0
    ensures forall k | 0 <= k < |"_" + NatText(m)| :: InNumber(("_" + NatText(m))[k])
    ensures NumText("_" + NatText(m)) == "-" + NatText(m)
    ensures ScaleOf("_" + NatText(m)) == 0 && BaseOf("_" + NatText(m)) == 10
  {
    var digits := NatText(m);
    NegativeLiteralRunes(digits);
    DigitsOnlyRun(digits);
    NumTextPrepend(digits);
    ScalePrepend(digits);
  }

  lemma NegativeLiteralRunes(digits: string)
    requires forall k | 0 <= k < |digits| :: IsDecimalDigit(digits[k])
    ensures forall k | 0 <= k < |"_" + digits| :: InNumber(("_" + digits)[k]) && !IsHexLetter(("_" + digits)[k])
  {
    var t := "_" + digits;
    assert forall k | 1 <= k < |t| :: t[k] == digits[k - 1];
  }

  /** Reading back the literal of an integer, followed by the end of the
      input or by any rune that ends a literal, gives that integer at scale 0
      and stops right after it; an integer outside int64 is refused. */
  lemma LiteralRoundTrip(n: int, rest: string)
    requires rest == [] || !InNumber(rest[0])
    ensures IsInt64(n) ==> LexNumber(LiteralText(n) + rest, 0) == Ok((ScaledNumber(n, 0), |LiteralText(n)|))
    ensures !IsInt64(n) ==> LexNumber(LiteralText(n) + rest, 0) == Err(ParseFailure)
  {
    var t := LiteralText(n);
    var input := t + rest;
    LiteralParts(n);
    assert forall k | 0 <= k < |t| :: input[k] == t[k];
    RunEndUnique(input, 0, |t|);
    assert input[0..|t|] == t;
    ParseDecimalText(n);
  }

  lemma {:induction false} NumTextPrepend(s: string)
    ensures NumText("_" + s) == "-" + NumText(s)
  {
    if s != [] {
      var init := s[..|s| - 1];
      NumTextPrepend(init);
      assert ("_" + s)[..|s|] == "_" + init;
    }
  }

  lemma {:induction false} ScalePrepend(s: string)
    requires CountDots(s) == 0
    ensures ScaleOf("_" + s) == 0
  {
    if s != [] {
      var init := s[..|s| - 1];
      ScaleOfCounts(s);
      ScalePrepend(init);
      assert ("_" + s)[..|s|] == "_" + init;
    }
  }

  // ---------------------------------------------------------------------
  // ReadCommand

  /** The first ']' at or after from, or the end of the input if there is none. */
  function FindClose(input: string, from: nat): (e: nat)
    requires from <= |input|
    ensures from <= e <= |input|
    ensures e < |input| ==> input[e] == ']'
    ensures forall k | from <= k < e :: input[k] != ']'
    decreases |input| - from
  {
    if from == |input| || input[from] == ']' then from else FindClose(input, from + 1)
  }

  /** The text with every '[' taken out. */
  function DropOpen(s: string): (r: string)
    ensures forall k | 0 <= k < |r| :: r[k] != '['
  {
    if s == [] then "" else DropOpen(s[..|s| - 1]) + (if s[|s| - 1] == '[' then "" else [s[|s| - 1]])
  }

  /** The command string starting at pos: it must open with '[', runs to the
      first ']' and drops every further '['; the reader is left just past
      the ']'. */
  function LexCommand(input: string, pos: nat): (r: Result<(string, nat)>)
    requires pos <= |input|
    ensures r.Ok? ==> pos < r.value.1 <= |input|
  {
    if pos == |input| then Err(UnterminatedCommand)
    else if input[pos] != '[' then Err(ExpectedOpenBracket)
    else
      var e := FindClose(input, pos + 1);
      if e == |input| then Err(UnterminatedCommand)
      else Ok((DropOpen(input[pos + 1..e]), e + 1))
  }

  /** ReadCommand, with its loop over the runes of the command. */
  method ReadCommand(input: string, pos: nat) returns (res: Result<(string, nat)>)
    requires pos <= |input|
    ensures res == LexCommand(input, pos)
  {
    var command: string := "";
    var startFound := false;
    var endFound := false;
    var i := pos;
    while true
      invariant pos <= i <= |input|
      invariant !startFound ==> i == pos && command == ""
      invariant startFound ==> i > pos && input[pos] == '['
      invariant startFound ==> command == DropOpen(input[pos + 1..i])
      invariant startFound ==> forall k | pos + 1 <= k < i :: input[k] != ']'
      invariant !endFound
      decreases |input| - i
    {
      if i == |input| {
        break;
      }
      var next := input[i];
      i := i + 1;
      if next == '[' {
        if startFound {
          var prev := input[pos + 1..i - 1];
          assert input[pos + 1..i] == prev + [next];
          assert (prev + [next])[..|prev|] == prev;
          assert DropOpen(prev + [next]) == DropOpen(prev);
        }
        startFound := true;
        continue;
      } else if !startFound {
        return Err(ExpectedOpenBracket);
      }
      if next == ']' {
        endFound := true;
        FindCloseUnique(input, pos + 1, i - 1);
        break;
      }
      var prev := input[pos + 1..i - 1];
      assert input[pos + 1..i] == prev + [next];
      assert (prev + [next])[..|prev|] == prev;
      assert DropOpen(prev + [next]) == DropOpen(prev) + [next];
      command := command + [next];
    }
    if !endFound {
      if startFound {
        FindCloseUnique(input, pos + 1, |input|);
      }
      return Err(UnterminatedCommand);
    }
    res := Ok((command, i));
  }

  lemma {:induction false} FindCloseUnique(input: string, from: nat, e: nat)
    requires from <= e <= |input|
    requires e < |input| ==> input[e] == ']'
    requires forall k | from <= k < e :: input[k] != ']'
    ensures FindClose(input, from) == e
    decreases e - from
  {
    if from < e {
      FindCloseUnique(input, from + 1, e);
    }
  }

  lemma {:induction false} DropOpenClean(s: string)
    requires forall k | 0 <= k < |s| :: s[k] != '['
    ensures DropOpen(s) == s
  {
    if s != [] {
      DropOpenClean(s[..|s| - 1]);
    }
  }

  /** A command text without brackets, written between '[' and ']', reads
      back as itself, and the reader stops just past the ']'. */
  lemma CommandRoundTrip(text: string, rest: string)
    requires forall k | 0 <= k < |text| :: text[k] != '[' && text[k] != ']'
    ensures LexCommand("[" + text + "]" + rest, 0) == Ok((text, |text| + 2))
  {
    var input := "[" + text + "]" + rest;
    FindCloseUnique(input, 1, |text| + 1);
    assert input[1..|text| + 1] == text;
    DropOpenClean(text);
  }

  /** ReadCommand fails unless its first rune is '[', and fails when no ']'
      follows; on success the text holds no '[' and no ']'. */
  lemma CommandShape(input: string, pos: nat)
    requires pos <= |input|
    ensures pos < |input| && input[pos] != '[' ==> LexCommand(input, pos) == Err(ExpectedOpenBracket)
    ensures (forall k | pos < k < |input| :: input[k] != ']') ==> LexCommand(input, pos).Err?
    ensures LexCommand(input, pos).Ok? ==>
              var (text, next) := LexCommand(input, pos).value;
              pos + 2 <= next <= |input| && input[next - 1] == ']' &&
              forall k | 0 <= k < |text| :: text[k] != '[' && text[k] != ']'
  {
    if pos < |input| && input[pos] == '[' {
      var e := FindClose(input, pos + 1);
      if e < |input| {
        DropOpenSubset(input[pos + 1..e]);
      }
    }
  }

  lemma {:induction false} DropOpenSubset(s: string)
    requires forall k | 0 <= k < |s| :: s[k] != ']'
    ensures forall k | 0 <= k < |DropOpen(s)| :: DropOpen(s)[k] != ']'
  {
    if s != [] {
      DropOpenSubset(s[..|s| - 1]);
    }
  }
}
