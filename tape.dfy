/**
 * The interpreter's tape: a fixed-size buffer of unsigned 8-bit cells with a
 * cursor `ptr` that wraps around at both ends.
 *
 * The pure functions on `TapeState` are the specification; the class `Memory`
 * is the in-place implementation, and each of its methods is proved to move
 * its abstract state exactly as the matching function says.
 */
module Tape {

  /** An unsigned 8-bit cell value (Rust `u8`). */
  type Byte = x: int | 0 <= x < 256

  /** `Memory::MIN_SIZE`: the smallest tape `Memory::new` accepts. */
  const MIN_SIZE: nat := 8

  /** `u8::wrapping_add(1)`. */
  function WrapInc(v: Byte): (r: Byte)
    ensures v < 255 ==> r == v + 1
    ensures v == 255 ==> r == 0
  {
    (v + 1) % 256
  }

  /** `u8::wrapping_sub(1)` (Dafny's `%` is Euclidean, so `-1 % 256 == 255`). */
  function WrapDec(v: Byte): (r: Byte)
    ensures v > 0 ==> r == v - 1
    ensures v == 0 ==> r == 255
  {
    (v - 1) % 256
  }

  /** The abstract value of a `Memory`: its cells and its cursor. */
  datatype TapeState = TapeState(cells: seq<Byte>, ptr: nat)
  {
    predicate Valid() {
      MIN_SIZE <= |cells| && ptr < |cells|
    }
  }

  /** The tape `Memory::new(size)` produces. */
  function Fresh(size: nat): (t: TapeState)
    requires MIN_SIZE <= size
    ensures t.Valid() && |t.cells| == size && t.ptr == 0
    ensures forall k :: 0 <= k < size ==> t.cells[k] == 0
  {
    TapeState(seq(size, _ => 0), 0)
  }

  /** The cell under the cursor. */
  function Current(t: TapeState): Byte
    requires t.Valid()
  {
    t.cells[t.ptr]
  }

  /** `Memory::set`: overwrite the cell under the cursor. */
  function Written(t: TapeState, v: Byte): (r: TapeState)
    requires t.Valid()
    ensures r.Valid() && r.ptr == t.ptr && |r.cells| == |t.cells|
    ensures r.cells[t.ptr] == v
    ensures forall k :: 0 <= k < |t.cells| && k != t.ptr ==> r.cells[k] == t.cells[k]
  {
    t.(cells := t.cells[t.ptr := v])
  }

  /** `Memory::move_left`: one cell left, from 0 to the last cell. */
  function ShiftedLeft(t: TapeState): (r: TapeState)
    requires t.Valid()
    ensures r.Valid() && r.cells == t.cells
    ensures t.ptr == 0 ==> r.ptr == |t.cells| - 1
    ensures t.ptr > 0 ==> r.ptr == t.ptr - 1
  {
    if t.ptr == 0 then t.(ptr := |t.cells| - 1) else t.(ptr := t.ptr - 1)
  }

  /** `Memory::move_right`: one cell right, from the last cell to 0. */
  function ShiftedRight(t: TapeState): (r: TapeState)
    requires t.Valid()
    ensures r.Valid() && r.cells == t.cells
    ensures t.ptr == |t.cells| - 1 ==> r.ptr == 0
    ensures t.ptr < |t.cells| - 1 ==> r.ptr == t.ptr + 1
  {
    if t.ptr == |t.cells| - 1 then t.(ptr := 0) else t.(ptr := t.ptr + 1)
  }

  /**
   * `Memory::inc` as written: it dereferences the start of the buffer, so it
   * always adds 1 to cell 0, wherever the cursor is.
   */
  function Incremented(t: TapeState): (r: TapeState)
    requires t.Valid()
    ensures r.Valid() && r.ptr == t.ptr && |r.cells| == |t.cells|
    ensures r.cells[0] == WrapInc(t.cells[0])
    ensures forall k :: 0 < k < |t.cells| ==> r.cells[k] == t.cells[k]
  {
    t.(cells := t.cells[0 := WrapInc(t.cells[0])])
  }

  /** `Memory::dec` as written: subtracts 1 from cell 0, wherever the cursor is. */
  function Decremented(t: TapeState): (r: TapeState)
    requires t.Valid()
    ensures r.Valid() && r.ptr == t.ptr && |r.cells| == |t.cells|
    ensures r.cells[0] == WrapDec(t.cells[0])
    ensures forall k :: 0 < k < |t.cells| ==> r.cells[k] == t.cells[k]
  {
    t.(cells := t.cells[0 := WrapDec(t.cells[0])])
  }

  /** The corrected increment its documentation describes: the cell under the cursor. */
  function IncrementedAtCursor(t: TapeState): (r: TapeState)
    requires t.Valid()
    ensures r.Valid() && r.ptr == t.ptr && |r.cells| == |t.cells|
    ensures Current(r) == WrapInc(Current(t))
    ensures forall k :: 0 <= k < |t.cells| && k != t.ptr ==> r.cells[k] == t.cells[k]
  {
    Written(t, WrapInc(Current(t)))
  }

  /** The corrected decrement: the cell under the cursor. */
  function DecrementedAtCursor(t: TapeState): (r: TapeState)
    requires t.Valid()
    ensures r.Valid() && r.ptr == t.ptr && |r.cells| == |t.cells|
    ensures Current(r) == WrapDec(Current(t))
    ensures forall k :: 0 <= k < |t.cells| && k != t.ptr ==> r.cells[k] == t.cells[k]
  {
    Written(t, WrapDec(Current(t)))
  }

  /** `n` consecutive `inc`s. */
  function IncrementedTimes(t: TapeState, n: nat): (r: TapeState)
    requires t.Valid()
    ensures r.Valid()
  {
    if n == 0 then t else Incremented(IncrementedTimes(t, n - 1))
  }

  // ---------------------------------------------------------------------------
  // Properties of the tape operations

  /** Moving left then right, or right then left, restores the cursor and the cells. */
  lemma ShiftRoundTrip(t: TapeState)
    requires t.Valid()
    ensures ShiftedRight(ShiftedLeft(t)) == t
    ensures ShiftedLeft(ShiftedRight(t)) == t
  {
  }

  /** A `get` after `set(v)` returns `v`. */
  lemma WriteThenRead(t: TapeState, v: Byte)
    requires t.Valid()
    ensures Current(Written(t, v)) == v
  {
  }

  /** `inc` then `dec`, and `dec` then `inc`, leave the tape as it was. */
  lemma IncDecInverse(t: TapeState)
    requires t.Valid()
    ensures Decremented(Incremented(t)) == t
    ensures Incremented(Decremented(t)) == t
  {
  }

  /** `n` increments add `n` modulo 256 to cell 0 and change nothing else. */
  lemma {:induction false} IncrementedTimesValue(t: TapeState, n: nat)
    requires t.Valid()
    ensures IncrementedTimes(t, n) == t.(cells := t.cells[0 := (t.cells[0] + n) % 256])
  {
    if n > 0 {
      IncrementedTimesValue(t, n - 1);
    }
  }

  /** 256 increments restore the tape. */
  lemma IncrementPeriod(t: TapeState)
    requires t.Valid()
    ensures IncrementedTimes(t, 256) == t
  {
    IncrementedTimesValue(t, 256);
    assert t.cells[0 := t.cells[0]] == t.cells;
  }

  /**
   * As written, `inc` and `dec` never change the cell the cursor is on unless
   * the cursor is at 0: `+` followed by `.` does not see the increment.
   */
  lemma IncDecIgnoreCursor(t: TapeState)
    requires t.Valid() && t.ptr != 0
    ensures Current(Incremented(t)) == Current(t)
    ensures Current(Decremented(t)) == Current(t)
    ensures Incremented(t).cells[0] != t.cells[0]
    ensures Decremented(t).cells[0] != t.cells[0]
  {
  }

  /** Concretely: on a fresh tape, `>+` leaves the current cell 0 and sets cell 0 to 1. */
  lemma IncAfterMoveRightExample()
    ensures Current(Incremented(ShiftedRight(Fresh(MIN_SIZE)))) == 0
    ensures Incremented(ShiftedRight(Fresh(MIN_SIZE))).cells[0] == 1
    ensures Current(IncrementedAtCursor(ShiftedRight(Fresh(MIN_SIZE)))) == 1
  {
  }

  /** The corrected increment and decrement change the current cell and undo each other. */
  lemma AtCursorInverse(t: TapeState)
    requires t.Valid()
    ensures DecrementedAtCursor(IncrementedAtCursor(t)) == t
    ensures IncrementedAtCursor(DecrementedAtCursor(t)) == t
  {
  }

  // ---------------------------------------------------------------------------
  // The in-place implementation

  /** `struct Memory`: the buffer, its size and the cursor. */
  class Memory {
    const cells: array<Byte>
    const size: nat
    var ptr: nat

    ghost predicate Valid()
      reads this
    {
      cells.Length == size && MIN_SIZE <= size && ptr < size
    }

    /** The abstract value of this memory. */
    function State(): (t: TapeState)
      reads this, cells
      requires Valid()
      ensures t.Valid() && |t.cells| == size
    {
      TapeState(cells[..], ptr)
    }

    /** `Memory::new`: panics when `size < MIN_SIZE`, hence the precondition. */
    constructor (size: nat)
      requires MIN_SIZE <= size
      ensures Valid() && fresh(cells) && this.size == size
      ensures State() == Fresh(size)
    {
      this.size := size;
      cells := new Byte[size](_ => 0);
      ptr := 0;
      new;
      assert cells[..] == seq(size, _ => 0);
    }

    /** `Memory::get`: the current cell; changes nothing. */
    method Get() returns (v: Byte)
      requires Valid()
      ensures v == Current(State())
    {
      v := cells[ptr];
    }

    /** `Memory::set`. */
    method Set(v: Byte)
      requires Valid()
      modifies cells
      ensures Valid() && State() == Written(old(State()), v)
    {
      cells[ptr] := v;
    }

    /** `Memory::move_left`. */
    method MoveLeft()
      requires Valid()
      modifies this
      ensures Valid() && State() == ShiftedLeft(old(State()))
    {
      if ptr == 0 {
        ptr := size - 1;
        return;
      }
      ptr := ptr - 1;
    }

    /** `Memory::move_right`. */
    method MoveRight()
      requires Valid()
      modifies this
      ensures Valid() && State() == ShiftedRight(old(State()))
    {
      if ptr == size - 1 {
        ptr := 0;
        return;
      }
      ptr := ptr + 1;
    }

    /** `Memory::inc`, as written: cell 0. */
    method Inc()
      requires Valid()
      modifies cells
      ensures Valid() && State() == Incremented(old(State()))
    {
      cells[0] := WrapInc(cells[0]);
    }

    /** `Memory::dec`, as written: cell 0. */
    method Dec()
      requires Valid()
      modifies cells
      ensures Valid() && State() == Decremented(old(State()))
    {
      cells[0] := WrapDec(cells[0]);
    }
  }
}
