/** The calculator's stack: a backing array of item slots and a pointer to
    the top slot. Slot 0 always holds a numeric zero, so the stack is never
    observably empty: popping the last item refills slot 0 with a new zero. */
module Stacks {
  import opened Numbers
  import opened Items

  /** NewStack allocates 100 slots. */
  const InitialCapacity: nat := 100

  /** The capacity after growth, int(float64(cap) * StackGrowthFactor) with
      the factor 1.2, written as the integer floor of 6 * cap / 5. */
  function Grown(cap: nat): (c: nat)
    ensures cap >= InitialCapacity ==> c > cap
  {
    cap * 6 / 5
  }

  /** A stack as a value: the whole backing array and the pointer. Slots
      above the pointer are kept: `l` can bring slot 1 back into view. */
  datatype StackVal = StackVal(slots: seq<Slot>, pointer: int)

  /** The shape every stack keeps between operations. */
  predicate WellFormed(s: StackVal)
  {
    |s.slots| >= InitialCapacity && 0 <= s.pointer < |s.slots| && s.slots[0] == Some(ZeroItem)
  }

  /** The slots a caller can see, from the bottom (slot 0) to the top. */
  function Contents(s: StackVal): (c: seq<Slot>)
    requires 0 <= s.pointer < |s.slots|
    ensures |c| == s.pointer + 1
  {
    s.slots[..s.pointer + 1]
  }

  /** NewStack: 100 slots, slot 0 holding a zero item, pointer 0. */
  function NewStackVal(): StackVal
  {
    StackVal([Some(ZeroItem)] + seq(InitialCapacity - 1, _ => Nil), 0)
  }

  lemma NewStackShape()
    ensures WellFormed(NewStackVal())
    ensures Contents(NewStackVal()) == [Some(ZeroItem)]
  {
  }

  /** Push: grows the array when the next slot is past its end (the
      test `Pointer+1 >= cap`, see the finding about Push), then stores x
      in the slot above the old top. */
  function PushVal(s: StackVal, x: Slot): (r: StackVal)
    requires -1 <= s.pointer < |s.slots| && |s.slots| >= InitialCapacity
    ensures r.pointer == s.pointer + 1 < |r.slots| && |r.slots| >= |s.slots|
    ensures r.slots[r.pointer] == x
    ensures forall i | 0 <= i < |r.slots| && i != r.pointer ::
              r.slots[i] == if i < |s.slots| then s.slots[i] else Nil
  {
    var slots := if s.pointer + 1 >= |s.slots|
                 then s.slots + seq(Grown(|s.slots|) - |s.slots|, _ => Nil)
                 else s.slots;
    StackVal(slots[s.pointer + 1 := x], s.pointer + 1)
  }

  /** Push makes x the new top, raises the pointer by one and leaves every
      item below untouched, growing the array when it is full. */
  lemma PushOnTop(s: StackVal, x: Slot)
    requires WellFormed(s)
    ensures WellFormed(PushVal(s, x))
    ensures Contents(PushVal(s, x)) == Contents(s) + [x]
  {
    var r := PushVal(s, x);
    assert forall i | 0 <= i < |Contents(s)| :: Contents(r)[i] == Contents(s)[i];
  }

  /** Pop: takes the top slot and lowers the pointer; when that leaves no
      item it pushes a new zero item into slot 0. */
  function PopVal(s: StackVal): (r: (Slot, StackVal))
    requires WellFormed(s)
    ensures WellFormed(r.1) && r.1.slots == s.slots
    ensures r.0 == s.slots[s.pointer]
  {
    var x := s.slots[s.pointer];
    if s.pointer - 1 < 0 then
      var refilled := PushVal(StackVal(s.slots, -1), Some(ZeroItem));
      assert refilled.slots == s.slots;
      (x, refilled)
    else
      (x, StackVal(s.slots, s.pointer - 1))
  }

  /** Pop removes the top item and gives it back; popping the last item
      gives that item and leaves a single zero item, so the pointer never
      drops below 0. */
  lemma PopTop(s: StackVal)
    requires WellFormed(s)
    ensures PopVal(s).1.pointer >= 0
    ensures s.pointer >= 1 ==> Contents(s) == Contents(PopVal(s).1) + [PopVal(s).0]
    ensures s.pointer == 0 ==> PopVal(s).0 == Some(ZeroItem) && Contents(PopVal(s).1) == [Some(ZeroItem)]
  {
    var r := PopVal(s).1;
    if s.pointer >= 1 {
      assert Contents(s) == s.slots[..s.pointer] + [s.slots[s.pointer]];
    }
  }

  /** Popping a fresh stack gives a zero item and leaves a fresh stack. */
  lemma PopFresh()
    ensures PopVal(NewStackVal()) == (Some(ZeroItem), NewStackVal())
  {
  }

  /** n pops in a row: the slots they return and the stack they leave. */
  function PopMany(s: StackVal, n: nat): (r: (seq<Slot>, StackVal))
    requires WellFormed(s)
    ensures |r.0| == n && WellFormed(r.1)
    decreases n
  {
    if n == 0 then ([], s)
    else
      var (x, t) := PopVal(s);
      var (xs, u) := PopMany(t, n - 1);
      ([x] + xs, u)
  }

  /** However many times a fresh stack is popped, every pop gives a zero
      item and the stack stays fresh. */
  lemma {:induction false} FreshPopsZeroForever(n: nat)
    ensures PopMany(NewStackVal(), n).0 == seq(n, _ => Some(ZeroItem))
    ensures PopMany(NewStackVal(), n).1 == NewStackVal()
  {
    if n > 0 {
      var z := NewStackVal();
      PopFresh();
      FreshPopsZeroForever(n - 1);
      var rest := PopMany(z, n - 1);
      assert PopMany(z, n).0 == [Some(ZeroItem)] + rest.0;
      assert seq(n, _ => Some(ZeroItem)) == [Some(ZeroItem)] + seq(n - 1, _ => Some(ZeroItem));
    }
  }

  /** Peek: the top item, a copy. Go's Peek reads a field of the top item,
      which panics on a nil slot. */
  function PeekVal(s: StackVal): (r: Result<StackItem>)
    requires 0 <= s.pointer < |s.slots|
    ensures r.Ok? <==> s.slots[s.pointer].Some?
    ensures r.Ok? ==> Some(r.value) == Contents(s)[s.pointer]
  {
    match s.slots[s.pointer]
    case Nil => Err(NilItem)
    case Some(item) => Ok(item)
  }

  /** Peeking right after a push sees the pushed item; popping right after it
      gives the item back and restores the visible contents. */
  lemma PushThenPeekAndPop(s: StackVal, item: StackItem)
    requires WellFormed(s)
    ensures PeekVal(PushVal(s, Some(item))) == Ok(item)
    ensures PopVal(PushVal(s, Some(item))).0 == Some(item)
    ensures Contents(PopVal(PushVal(s, Some(item))).1) == Contents(s)
  {
    PushOnTop(s, Some(item));
    PopTop(PushVal(s, Some(item)));
  }

  /** Push exactly as written: it grows only when Pointer+1 > cap, and there
      it swaps the new, all-nil array in and copies it over the old one;
      then it writes slot Pointer+1, which panics when that index is past
      the end of the array. */
  function PushAsWritten(s: StackVal, x: Slot): (r: Result<StackVal>)
    requires -1 <= s.pointer
    ensures r.Ok? ==> r.value.pointer == s.pointer + 1
  {
    var slots := if s.pointer + 1 > |s.slots| then seq(Grown(|s.slots|), _ => Nil) else s.slots;
    if s.pointer + 1 < |slots| then Ok(StackVal(slots[s.pointer + 1 := x], s.pointer + 1))
    else Err(IndexOutOfRange)
  }

  /** n pushes of zero items onto a fresh stack, with the corrected Push. */
  function PushMany(n: nat): (s: StackVal)
    ensures WellFormed(s) && s.pointer == n
  {
    if n == 0 then NewStackVal() else PushVal(PushMany(n - 1), Some(ZeroItem))
  }

  /** Up to 99 pushes onto a fresh stack do not grow its 100 slots. */
  lemma {:induction false} PushManyCapacity(n: nat)
    requires n < InitialCapacity
    ensures |PushMany(n).slots| == InitialCapacity
  {
    if n > 0 {
      PushManyCapacity(n - 1);
    }
  }

  /** The off-by-one growth test: after 99 pushes a fresh stack is full,
      and the 100th push as written writes past the end (a panic), while
      the corrected Push grows the array and succeeds. */
  lemma PushAsWrittenFailsOnFullStack(x: Slot)
    ensures PushAsWritten(PushMany(InitialCapacity - 1), x) == Err(IndexOutOfRange)
    ensures Contents(PushVal(PushMany(InitialCapacity - 1), x)) == Contents(PushMany(InitialCapacity - 1)) + [x]
  {
    PushManyCapacity(InitialCapacity - 1);
    PushOnTop(PushMany(InitialCapacity - 1), x);
  }

  /** The reversed copy: were the growth branch as written taken, every
      item below the new top would be lost. */
  lemma PushAsWrittenGrowthLosesItems(s: StackVal, x: Slot)
    requires s.pointer + 1 > |s.slots| >= InitialCapacity
    requires s.pointer + 1 < Grown(|s.slots|)
    ensures PushAsWritten(s, x).Ok?
    ensures forall i | 0 <= i < s.pointer + 1 :: PushAsWritten(s, x).value.slots[i] == Nil
  {
  }

  /** A stack over a backing array that Push and Pop update in place. */
  class Stack {
    var items: array<Slot>
    var pointer: int

    ghost function Val(): StackVal
      reads this, items
    {
      StackVal(items[..], pointer)
    }

    ghost predicate Valid()
      reads this, items
    {
      WellFormed(Val())
    }

    /** NewStack. */
    constructor ()
      ensures Valid() && Val() == NewStackVal() && fresh(items)
    {
      var a := new Slot[InitialCapacity](_ => Nil);
      a[0] := Some(ZeroItem);
      items := a;
      pointer := 0;
      assert forall k | 0 <= k < a.Length :: a[k] == NewStackVal().slots[k];
      assert a[..] == NewStackVal().slots;
      NewStackShape();
    }

    method Push(x: Slot)
      requires -1 <= pointer < items.Length && items.Length >= InitialCapacity
      modifies this, items
      ensures items == old(items) || fresh(items)
      ensures old(pointer) + 1 < old(items.Length) ==> items == old(items)
      ensures Val() == PushVal(old(Val()), x)
      ensures WellFormed(old(Val())) ==> WellFormed(Val())
    {
      if WellFormed(Val()) {
        PushOnTop(Val(), x);
      }
      if pointer + 1 >= items.Length {
        var a := items;
        var swap := new Slot[Grown(a.Length)](_ => Nil);
        var i := 0;
        while i < a.Length
          invariant 0 <= i <= a.Length < swap.Length
          invariant items == a && pointer == old(pointer) && a[..] == old(items[..])
          invariant forall k | 0 <= k < i :: swap[k] == a[k]
          invariant forall k | i <= k < swap.Length :: swap[k] == Nil
        {
          swap[i] := a[i];
          i := i + 1;
        }
        assert swap[..] == a[..] + seq(Grown(a.Length) - a.Length, _ => Nil);
        items := swap;
      }
      pointer := pointer + 1;
      items[pointer] := x;
    }

    method Pop() returns (x: Slot)
      requires Valid()
      modifies this, items
      ensures Valid() && items == old(items)
      ensures (x, Val()) == PopVal(old(Val()))
    {
      x := items[pointer];
      pointer := pointer - 1;
      if pointer < 0 {
        Push(Some(ZeroItem));
      }
    }

    method Peek() returns (r: Result<StackItem>)
      requires Valid()
      ensures r == PeekVal(Val())
    {
      var j := items[pointer];
      match j
      case Nil => r := Err(NilItem);
      case Some(item) => r := Ok(item);
    }
  }
}
