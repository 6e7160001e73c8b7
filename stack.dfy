// The return-address stack of the VM: a fixed array of 20 uint16_t cells
// and a stack pointer; push on a full stack and pop or peek on an empty one
// raise overflow_error / underflow_error.

module AddressStack {
  import opened Base

  /** VM_STACK_SIZE. */
  const STACK_SIZE: nat := 20

  /** The contents of a Stack object: every cell, and the stack pointer. */
  datatype StackState = StackState(cells: seq<u16>, pointer: nat)
  {
    predicate Valid()
    {
      |cells| == STACK_SIZE && pointer <= STACK_SIZE
    }

    /** The addresses on the stack, bottom first. */
    function Contents(): seq<u16>
      requires Valid()
    {
      cells[..pointer]
    }

    function Push(x: u16): (r: Result<StackState>)
      requires Valid()
      ensures r.Ok? ==> r.value.Valid()
    {
      if pointer == STACK_SIZE then Err(StackOverflow)
      else Ok(StackState(cells[pointer := x], pointer + 1))
    }

    function Pop(): (r: Result<(u16, StackState)>)
      requires Valid()
      ensures r.Ok? ==> r.value.1.Valid()
    {
      if pointer == 0 then Err(StackUnderflow)
      else Ok((cells[pointer - 1], this.(pointer := pointer - 1)))
    }

    /** The address on top, if any. */
    function Peek(): (r: Result<u16>)
      requires Valid()
      ensures r.Ok? <==> Contents() != []
      ensures r.Ok? ==> r.value == Contents()[|Contents()| - 1]
    {
      if pointer == 0 then Err(StackUnderflow) else Ok(cells[pointer - 1])
    }

    predicate IsEmpty()
      requires Valid()
      ensures IsEmpty() <==> Contents() == []
    {
      pointer == 0
    }

    predicate IsFull()
      requires Valid()
      ensures IsFull() <==> |Contents()| == STACK_SIZE
    {
      pointer == STACK_SIZE
    }
  }

  /** The stack after clear(): pointer 0, every cell zero. */
  function ClearedStack(): (s: StackState)
    ensures s.Valid() && s.Contents() == []
  {
    StackState(seq(STACK_SIZE, _ => 0), 0)
  }

  // ---- properties ---------------------------------------------------------------

  /** push fails exactly on a full stack, and otherwise appends on top. */
  lemma PushAppends(s: StackState, x: u16)
    requires s.Valid()
    ensures s.Push(x).Err? <==> s.IsFull()
    ensures s.Push(x).Err? ==> s.Push(x).fault == StackOverflow
    ensures s.Push(x).Ok? ==> s.Push(x).value.Contents() == s.Contents() + [x]
  {
    if !s.IsFull() {
      assert s.Push(x).value.Contents() == s.Contents() + [x];
    }
  }

  /** pop fails exactly on an empty stack, and otherwise removes and returns
    * the top address. */
  lemma PopRemovesTop(s: StackState)
    requires s.Valid()
    ensures s.Pop().Err? <==> s.IsEmpty()
    ensures s.Pop().Err? ==> s.Pop().fault == StackUnderflow
    ensures s.Pop().Ok? ==>
      var (top, t) := s.Pop().value;
      s.Contents() == t.Contents() + [top]
  {
    if !s.IsEmpty() {
      var (top, t) := s.Pop().value;
      assert s.Contents() == t.Contents() + [top];
    }
  }

  /** peek returns what pop would return and changes nothing. */
  lemma PeekIsPopTop(s: StackState)
    requires s.Valid()
    ensures s.Peek() == Then(s.Pop(), if s.IsEmpty() then 0 else s.Pop().value.0)
  {
  }

  /** Last in, first out: a pop after a successful push returns the pushed
    * address and restores the stack pointer and the contents. */
  lemma PushThenPop(s: StackState, x: u16)
    requires s.Valid() && s.Push(x).Ok?
    ensures var t := s.Push(x).value;
      t.Pop().Ok? && t.Pop().value.0 == x
      && t.Pop().value.1.pointer == s.pointer
      && t.Pop().value.1.Contents() == s.Contents()
  {
    var t := s.Push(x).value;
    assert t.Pop().value.1.Contents() == s.Contents();
  }

  // ---- the Stack object --------------------------------------------------------

  class Stack {
    var cells: array<u16>
    var pointer: nat

    ghost predicate Valid()
      reads this
    {
      cells.Length == STACK_SIZE && pointer <= STACK_SIZE
    }

    function Abs(): StackState
      reads this, cells
    {
      StackState(cells[..], pointer)
    }

    /** The constructor sets only the stack pointer; the cells hold whatever the
      * storage held. */
    constructor ()
      ensures Valid() && fresh(cells)
      ensures Abs().Contents() == []
    {
      cells := new u16[STACK_SIZE];
      pointer := 0;
    }

    method Push(x: u16) returns (r: Result<()>)
      requires Valid()
      modifies this, cells
      ensures Valid() && cells == old(cells)
      ensures Then(r, Abs()) == old(Abs()).Push(x)
      ensures r.Err? ==> Abs() == old(Abs())
    {
      if pointer == STACK_SIZE {
        return Err(StackOverflow);
      }
      cells[pointer] := x;
      pointer := pointer + 1;
      return Ok(());
    }

    method Pop() returns (r: Result<u16>)
      requires Valid()
      modifies this
      ensures Valid() && cells == old(cells)
      ensures match old(Abs()).Pop()
        case Ok((top, after)) => r == Ok(top) && Abs() == after
        case Err(f) => r == Err(f) && Abs() == old(Abs())
    {
      if pointer == 0 {
        return Err(StackUnderflow);
      }
      pointer := pointer - 1;
      return Ok(cells[pointer]);
    }

    method Peek() returns (r: Result<u16>)
      requires Valid()
      ensures r == Abs().Peek()
    {
      if pointer == 0 {
        return Err(StackUnderflow);
      }
      return Ok(cells[pointer - 1]);
    }

    function IsEmpty(): bool
      reads this
    {
      pointer == 0
    }

    function IsFull(): bool
      reads this
    {
      pointer == STACK_SIZE
    }

    method Clear()
      requires Valid()
      modifies this, cells
      ensures Valid() && cells == old(cells)
      ensures Abs() == ClearedStack()
    {
      pointer := 0;
      forall i | 0 <= i < STACK_SIZE {
        cells[i] := 0;
      }
      assert cells[..] == ClearedStack().cells;
    }
  }
}
