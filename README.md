# brainduck interpreter core in Dafny

A model of `brainduck`, a Brainfuck-style interpreter written in Rust as a
single file, `src/main.rs`. The model has three modules, one per part of the program:

- `Tape` (`tape.dfy`) models `Memory`. This is a buffer of at least 8 unsigned
  8-bit cells with a cursor `ptr`. The cursor wraps around at both ends, and cell
  arithmetic wraps modulo 256. The pure functions on the value `TapeState` give
  the meaning of each operation. The class `Memory` keeps the buffer in an
  `array<Byte>`, and each of its methods is proved to change its state exactly
  as the matching function says.
- `Comments` (`comments.dfy`) models `remove_comments`. It splits the text into
  lines the way Rust's `str::lines` does and cuts each line at its first `#`.
  The pieces are then concatenated with no separator. The method
  `RemoveComments` keeps the source's `for` loop and is proved equal to the
  function `Cleaned`.
- `Engine` (`engine.dfy`) covers three things:
  - `handle_operation` (function `Dispatch`, method `HandleOperation`);
  - `find_matching_bracket` (function `FirstClose`, method `FindMatchingBracket`);
  - the interpreter loop of `main`, as one `Step` of the machine and a
    fuel-bounded `Run`. `ExecuteStep` and `Interpret` are the imperative loop
    body and loop, proved equal to them.

In the engine, the side effects become values. The byte that `,` reads is
taken from an input sequence. Each element is `Some(b)` for a line that parses
as a `u8` and `None` for one that does not. What `.` prints is appended to an
output trace, as a `Letter` or a `Number`.

The model follows the code as written, where it differs from the program's
own comments:

- `inc` and `dec` change cell 0, not "the current memory cell" their doc
  comments promise (src/main.rs:221, src/main.rs:228). See Findings.
- The skip path of `[` stops at the first `]` at or after `[`, whatever the
  nesting (`ScanIgnoresNesting`). The `IdxOp::MoveIdx` doc comment
  (src/main.rs:256-257) speaks of a "matching" `]`. See Findings.
- `]` does not go "back to the beginning of the loop, i.e. the matching `[`"
  as the `IdxOp::BackIdx` doc comment says (src/main.rs:259-260). It sets `i`
  to the top of the loop stack, and then `i += 1` runs (src/main.rs:62, 66).
  So execution resumes after the `[` without re-testing it, and the stack is
  not popped. See Findings.
  - `LoopBodyRepeatsForever` proves the consequence for one kind of loop. Once
    a `[` has been entered, a body holding no `[`, `]` or `,` before its `]`
    repeats forever.
  - Two programs are proved never to halt: `+[-]` (`TakenLoopNeverExits`) and
    the cell-doubling program `++++++++[>++++++++<-]>.` (`DoublingNeverPrints`).
    The latter never reaches its `.`.
  - Loops whose bodies hold `[`, `]` or `,` are not covered by these lemmas.
    An unbalanced program can leave an entered loop: in `+[>[]`, the skipped
    inner `[` pops the outer entry, and the run halts (`UnbalancedLoopHalts`).
- The stack is popped only on the skip path (src/main.rs:58), although a skipped
  `[` pushed nothing. A skipped inner loop therefore pops the entry of the loop
  around it. Popping an empty stack does nothing. See Findings.
- Every error condition is a panic in the code. A panic while running becomes a
  `Fault` value:
  - a bad or missing input line for `,` (`InputNotAByte`);
  - a scan for `]` that runs off the end of the program (`ScanPastEnd`);
  - `]` with an empty loop stack (`EmptyLoopStack`).
  The panic of `Memory::new` for a size below 8 is a precondition of the
  constructor and of `Fresh`. The program never calls it that way, because it
  always asks for 128 cells.
- `remove_comments` joins the lines with no separator. So `"++#x\n+"` becomes
  `"+++"`, not `"++\n+"`.
- `str::lines` strips a `\r` only when it stands right before a `\n`. A final
  line with no `\n` after it keeps a trailing `\r`. This is the behaviour of
  current Rust.

## Model

| member | source | states |
|---|---|---|
| Tape.WrapInc | src/main.rs:224 | `wrapping_add(1)` on a `u8`: 255 goes to 0, any other byte goes up by one |
| Tape.WrapDec | src/main.rs:231 | `wrapping_sub(1)` on a `u8`: 0 goes to 255, any other byte goes down by one |
| Tape.Fresh | src/main.rs:174-187 | for `size >= 8`: `size` cells, all 0, cursor at 0, invariant established |
| Tape.Written | src/main.rs:194-199 | `set(v)` puts `v` under the cursor, keeps every other cell, the size and the cursor |
| Tape.ShiftedLeft | src/main.rs:201-209 | `move_left` gives `size-1` from 0 and `ptr-1` otherwise; cells unchanged, cursor stays in range |
| Tape.ShiftedRight | src/main.rs:211-219 | `move_right` gives 0 from `size-1` and `ptr+1` otherwise; cells unchanged, cursor stays in range |
| Tape.Incremented | src/main.rs:221-226 | `inc` as written: cell 0 goes up by one modulo 256, wherever the cursor is; all other cells and the cursor unchanged |
| Tape.Decremented | src/main.rs:228-233 | `dec` as written: cell 0 goes down by one modulo 256; all other cells and the cursor unchanged |
| Tape.IncrementedAtCursor | src/main.rs:221-226 | corrected `inc` (what its doc comment says): the current cell goes up by one modulo 256, all others unchanged |
| Tape.DecrementedAtCursor | src/main.rs:228-233 | corrected `dec`: the current cell goes down by one modulo 256, all others unchanged |
| Tape.ShiftRoundTrip | src/main.rs:201-219 | `move_left` then `move_right`, and the reverse order, restore the tape, including at both ends |
| Tape.WriteThenRead | src/main.rs:189-199 | `get` after `set(v)` returns `v` |
| Tape.IncDecInverse | src/main.rs:221-233 | `inc` then `dec`, and `dec` then `inc`, leave the whole tape as it was |
| Tape.IncrementedTimesValue | src/main.rs:221-226 | `n` increments add `n` modulo 256 to cell 0 and change nothing else |
| Tape.IncrementPeriod | src/main.rs:221-226 | 256 increments restore the tape |
| Tape.IncDecIgnoreCursor | src/main.rs:221-233 | with the cursor off cell 0, `inc` and `dec` leave the current cell as it was and do change cell 0 |
| Tape.IncAfterMoveRightExample | src/main.rs:211-226 | on a fresh tape, `>` then `+` leaves the current cell 0 and sets cell 0 to 1; the corrected increment would give 1 |
| Tape.AtCursorInverse | src/main.rs:221-233 | the corrected increment and decrement undo each other |
| Tape.Memory.constructor | src/main.rs:174-187 | `Memory::new(size)` with `size >= 8` makes a fresh buffer of `size` zero cells with `ptr == 0` |
| Tape.Memory.Get | src/main.rs:189-192 | returns the cell under the cursor and changes nothing |
| Tape.Memory.Set | src/main.rs:194-199 | the new state is `Written(old state, v)` |
| Tape.Memory.MoveLeft | src/main.rs:201-209 | the new state is `ShiftedLeft(old state)`; only `ptr` changes |
| Tape.Memory.MoveRight | src/main.rs:211-219 | the new state is `ShiftedRight(old state)`; only `ptr` changes |
| Tape.Memory.Inc | src/main.rs:221-226 | the new state is `Incremented(old state)`: cell 0 only |
| Tape.Memory.Dec | src/main.rs:228-233 | the new state is `Decremented(old state)`: cell 0 only |
| Comments.IndexOf | src/main.rs:89 | `find`: the character index of the first occurrence, or the length when there is none; nothing before it matches. `find` returns a byte offset, but slicing at either one keeps the same prefix |
| Comments.StripCarriageReturn | src/main.rs:87 | removes exactly one trailing `\r` when there is one, and otherwise returns the line unchanged |
| Comments.Lines | src/main.rs:87 | `str::lines`: no line contains `\n`; `LinesOfOneLine` and `LinesUnfold` below determine every line |
| Comments.StripComment | src/main.rs:88-92 | the longest prefix of the line without `#`: a prefix, free of `#`, and cut exactly at a `#` when shorter |
| Comments.Join | src/main.rs:87-95 | the concatenation contains no `#`, and no `\n` when no line does |
| Comments.Cleaned | src/main.rs:84-98 | the output has no `#` and no `\n` |
| Comments.JoinAppend | src/main.rs:94 | appending a line appends its stripped text (what one `push_str` does) |
| Comments.RemoveComments | src/main.rs:84-98 | the `for` loop over lines returns exactly `Cleaned(text)` |
| Comments.CleanedNoLonger | src/main.rs:84-98 | the output is never longer than the input |
| Comments.LinesOfOneLine | src/main.rs:87 | a text without `\n` is one line, or no line when it is empty |
| Comments.CleanedIdempotent | src/main.rs:84-98 | stripping twice equals stripping once |
| Comments.CleanedExample | src/main.rs:84-98 | `"++#x\n+"` becomes `"+++"` |
| Comments.CleanedFixesPlainText | src/main.rs:84-98 | a text with no `#` and no `\n` comes out unchanged |
| Comments.LinesNonEmpty | src/main.rs:87 | a non-empty text has at least one line |
| Comments.LinesRoundTrip | src/main.rs:87 | the lines are the pieces between the `\n`s, in order: without `\r` and without a final `\n`, joining them with `\n` gives the text back |
| Comments.LinesCarriageReturnNewline | src/main.rs:87 | a `\r` right before a `\n` is dropped: `a + "\r\n" + b` splits into `a` followed by the lines of `b` |
| Comments.LinesUnfold | src/main.rs:87 | a text `a + "\n" + b` with no `\n` in `a` splits into `a`, less one trailing `\r`, followed by the lines of `b` |
| Comments.LinesFinalNewline | src/main.rs:87 | for any non-empty text not ending in `\n`, adding a final `\n` adds no empty line: the lines are the same, except that the last one loses one trailing `\r`; with no final `\r` they are exactly the same |
| Engine.Classify | src/main.rs:110-119 | `.` prints a character exactly for bytes 65..=90 and 97..=122, and that character has the byte's code; otherwise it prints the byte's value |
| Engine.Dispatch | src/main.rs:100-135 | `[` gives `MoveIdx` iff the current cell is 0 and `SaveIdx` iff it is not; `]` gives `BackIdx`; any other character gives no verdict; only `.` prints; characters outside `<>+-,` (such as `~`) leave the tape unchanged |
| Engine.DispatchIgnoresInput | src/main.rs:106-109 | only `,` reads input |
| Engine.FirstClose | src/main.rs:72-80 | the least index at or after the start holding `]`, with no `]` before it; none exactly when no `]` follows |
| Engine.ScanIgnoresNesting | src/main.rs:72-80 | the scan is not nesting-aware: from 0 in `[[]]` it stops at 2 |
| Engine.Pop | src/main.rs:58 | `Vec::pop` removes the top, and does nothing on an empty stack |
| Engine.Step | src/main.rs:51-67 | a step faults exactly when `,` has no valid input line, when `[` on a zero cell has no `]` after it, or when `]` meets an empty stack; otherwise the tape keeps its size and the output grows by the classified cell exactly on `.` |
| Engine.Run | src/main.rs:49-67 | the loop exit both ways: a machine already past the end halts at once, unchanged, and a run halts only with `i` past the end; it faults only at an instruction inside the program |
| Engine.Iterate | src/main.rs:51-67 | inside the program, no fuel leaves the machine as it is (`OutOfFuel`); the same bounds as `Run` |
| Engine.StepThenRun | src/main.rs:51-67 | the same bounds for one iteration followed by the rest of the run |
| Engine.RunUnfold | src/main.rs:51-67 | at an instruction that does not fault, a run with fuel left is the run from the next machine with one less |
| Engine.RunFault | src/main.rs:51-67 | at an instruction that faults, a run with fuel left ends right there with that fault, on the unchanged machine |
| Engine.LoopControl | src/main.rs:54-66 | a taken `[` pushes `i` and goes on at `i+1`; a skipped `[` goes to the first `]` plus one and pops; `]` goes to the top plus one without popping |
| Engine.StepPreservesWellFormed | src/main.rs:54-66 | every stack entry stays the index of a `[` and `i` stays within `[0, len]` |
| Engine.RunMoreFuel | src/main.rs:51-67 | a run that stopped before its fuel ran out gives the same outcome with any more fuel |
| Engine.PlainInstructionStep | src/main.rs:51-67 | each of `<>+-` applies its tape operation and advances `i` by one; `,` consumes one input line, writes it to the current cell and advances; `.` appends the classified cell and advances; any other character outside `[]` only advances. The stack is untouched in every case |
| Engine.LoopBodyRepeatsForever | src/main.rs:56-66 | once a `[` is entered, a body with no `[`, `]` or `,` before its `]` is repeated forever: the run exhausts any fuel |
| Engine.TakenLoopNeverExits | src/main.rs:56-66 | `+[-]` does not halt, on any input and with any fuel |
| Engine.RunPlus | src/main.rs:104 | one `+` costs one step: it increments and advances `i` by one |
| Engine.RunTakenOpen | src/main.rs:54-66 | `[` on a non-zero cell costs one step: it pushes `i` and advances |
| Engine.AfterPluses | src/main.rs:104 | `n` increments from a machine: the tape incremented `n` times, `i` advanced by `n`, stack, input and output unchanged |
| Engine.RunPluses | src/main.rs:104 | `n` consecutive `+`s take `n` steps and leave exactly `AfterPluses` |
| Engine.RunPlusesIntoLoop | src/main.rs:51-66 | `n` `+`s followed by a `[` entered on a non-zero cell take `n + 1` steps and leave the loop pushed |
| Engine.DoublingEntersLoop | src/main.rs:49-67 | the first nine steps of `++++++++[>++++++++<-]>.` set cell 0 to 8 and enter the loop at 8 |
| Engine.DoublingNeverPrints | src/main.rs:49-67 | `++++++++[>++++++++<-]>.` never halts and so never reaches its `.` |
| Engine.MatchingClose | src/main.rs:256-257 | the scan the `MoveIdx` doc comment asks for: when it finds a `]`, that index is a `]` at or after the start |
| Engine.MatchingCloseBalanced | src/main.rs:256-257 | the `]` found is the first at which the bracket depth is back to 0; the depth is positive at every `]` before it, and at every `]` when none is found |
| Engine.MatchingCloseFlat | src/main.rs:72-80 | over a body with no `[`, the matching `]` is the first `]`, so the corrected scan agrees with `find_matching_bracket` |
| Engine.StepCorrected | src/main.rs:256-260 | corrected loop control: a skipped `[` goes past its matching `]` (`ScanPastEnd` when there is none) and leaves the stack alone; `]` faults on an empty stack, on a zero cell pops and continues after itself, and otherwise resumes after the `[` on top; every other instruction, and a taken `[`, is as in `Step` |
| Engine.CloseRetestsOpen | src/main.rs:259-260 | at a `]` whose matching `[` is on top of the stack, the corrected step equals popping that `[` and running it again |
| Engine.RunCorrected | src/main.rs:49-67 | `Run` with the corrected step: a machine past the end halts at once, unchanged; a run halts only with `i` past the end, and faults only inside the program |
| Engine.IterateCorrected | src/main.rs:51-67 | inside the program, no fuel leaves the machine as it is; the same bounds as `RunCorrected` |
| Engine.StepCorrectedThenRun | src/main.rs:51-67 | the same bounds for one corrected iteration followed by the rest of the run |
| Engine.RunCorrectedUnfold | src/main.rs:51-67 | at an instruction that does not fault, a corrected run with fuel left is the corrected run from the next machine with one less |
| Engine.CorrectedLoopExits | src/main.rs:259-260 | with the corrected step, `+[-]` halts after four steps with cell 0 at 0 and an empty stack |
| Engine.CorrectedNestedLoopExits | src/main.rs:256-260 | with the corrected step, `+[[-]]` halts after six steps with the tape as it started and both loops popped |
| Engine.NestedLoopsEntered | src/main.rs:56-66 | the first three corrected steps of `+[[-]]` set cell 0 to 1 and push both loops |
| Engine.NestedLoopsLeft | src/main.rs:256-260 | from inside both loops of `+[[-]]` with cell 0 at 1, three corrected steps zero it and pop both loops |
| Engine.OuterLoopEntered | src/main.rs:51-66 | from a blank machine, a leading `+[>` takes three steps: cell 0 becomes 1, the loop at 1 is pushed, the cursor moves to cell 1 |
| Engine.OuterLoopEnteredCorrected | src/main.rs:51-66 | the same three steps under the corrected step |
| Engine.SkipPopsEnclosingLoop | src/main.rs:56-62 | `+[>[]]` faults with `EmptyLoopStack` at its last `]`, because the skipped inner `[` popped the outer loop |
| Engine.CorrectedSkipEmptyLoop | src/main.rs:256-257 | under the corrected step, `[]` on a zero cell is skipped in one step with the stack unchanged |
| Engine.CorrectedLoopEnds | src/main.rs:259-260 | under the corrected step, `]` on a zero cell with an open loop pops it and continues after itself, in one step |
| Engine.CorrectedSkipKeepsEnclosingLoop | src/main.rs:256-260 | with the corrected step, `+[>[]]` halts after five steps with an empty stack |
| Engine.SkipStopsAtInnerClose | src/main.rs:72-80 | `[[]]` on a zero cell skips only to its inner `]` and then faults with `EmptyLoopStack` at the outer one |
| Engine.CorrectedSkipsNestedLoop | src/main.rs:256-257 | the matching scan finds the outer `]` of `[[]]`, and the corrected run skips the whole program in one step |
| Engine.PlusThreeExample | src/main.rs:100-119 | `+++.` halts after printing the number 3 and leaves 3 in cell 0 |
| Engine.LoneCloseExample | src/main.rs:62 | `]` alone faults on the empty stack |
| Engine.LoneOpenExample | src/main.rs:72-80 | `[` alone on a zero cell faults, because the scan runs off the end |
| Engine.UnbalancedLoopHalts | src/main.rs:56-66 | `+[>[]` leaves the loop it entered: the skipped inner `[` pops it, and the run halts after four steps with an empty stack |
| Engine.HandleOperation | src/main.rs:100-135 | on a live `Memory`: the new memory, the verdict and the printed value are those of `Dispatch` |
| Engine.FindMatchingBracket | src/main.rs:72-80 | the `while` loop returns `FirstClose`; where it would index past the end it returns `None` |
| Engine.ExecuteStep | src/main.rs:52-66 | one pass of the loop body on live state agrees with `Step`, and memory is untouched on a fault |
| Engine.Interpret | src/main.rs:40-67 | stripping comments, allocating 128 cells and running the loop gives exactly `Run(Cleaned(source), Initial(inputs), fuel)` |

## Findings

| source | as written | input that shows it | evidently intended | confidence | as-written member | corrected member |
|---|---|---|---|---|---|---|
| src/main.rs:221-233 | `inc` and `dec` update `*self.memory`, which is always cell 0 | a fresh tape after `>`: `+` leaves the current cell at 0, so `>+.` prints 0 | the doc comments say "the current memory cell": change `cells[ptr]` | high; not executed | Tape.IncAfterMoveRightExample | Tape.IncrementedAtCursor |
| src/main.rs:62 | `BackIdx` sets `i` to the top of the stack and `i += 1` follows, so the `[` is never tested again | `+[-]`: cell 0 reaches 0 after one pass, yet the loop runs forever | the `IdxOp::BackIdx` doc comment (src/main.rs:259-260) says to go back to the matching `[`, so the loop test runs again and a zero cell leaves the loop | high; not executed | Engine.TakenLoopNeverExits | Engine.CorrectedLoopExits |
| src/main.rs:56-59 | a skipped `[` pops the loop stack, although it pushed nothing | `+[>[]]`: the inner loop is skipped, its `[` pops the outer loop's entry, and the outer `]` panics on an empty stack | skipping a loop that was never entered leaves the stack alone | medium; not executed | Engine.SkipPopsEnclosingLoop | Engine.CorrectedSkipKeepsEnclosingLoop |
| src/main.rs:72-80 | `find_matching_bracket` stops at the first `]`, whatever the nesting | `[[]]` on a zero cell: the skip stops at the inner `]`, and the outer `]` panics on an empty stack | the `IdxOp::MoveIdx` doc comment (src/main.rs:256-257) says to move to the matching `]` | high; not executed | Engine.SkipStopsAtInnerClose | Engine.MatchingCloseBalanced |

`Tape.IncDecIgnoreCursor` generalises the counterexample: whenever `ptr != 0`,
`+` and `-` do not change the cell that `.` and `[` read.
`Tape.IncrementedAtCursor`, `Tape.DecrementedAtCursor` and
`Tape.AtCursorInverse` give the corrected operations and their properties. The
engine still runs the as-written `Incremented` and `Decremented`, because it
models the program as it is.

The last three rows share one corrected step, `Engine.StepCorrected`, and its
run, `Engine.RunCorrected`. It changes loop control only:

- A skipped `[` goes past its matching `]`, found by `Engine.MatchingClose`,
  and leaves the stack alone.
- `]` runs the loop test itself. On a zero cell it pops its loop and continues
  after itself. Otherwise it resumes after the `[` on top of the stack.
- Every other instruction, and a taken `[`, is as in `Step`. This includes the
  as-written `+` and `-` on cell 0.

`Engine.CloseRetestsOpen` ties this to the `IdxOp::BackIdx` doc comment. At a
`]` whose matching `[` is on top of the stack, the corrected step equals popping
that `[` and going back to run it again. Going back without the pop would push
the loop a second time whenever the test passes. `Engine.CorrectedNestedLoopExits`
shows nested loops ending under the corrected step. `Interpret` and `Run` keep
the as-written behaviour.

## Left out

- Command-line handling and `process::exit` (src/main.rs:31-36), and `read_file` (src/main.rs:243-248): operating-system I/O. `Interpret` takes the program text as a parameter.
- `get_input` (src/main.rs:137-152): the prompt, the stdin read and the `u8` parse. Each line is given already parsed, as `Some(byte)` or `None`. End of input is an empty sequence, and both `None` and the empty sequence lead to the `InputNotAByte` fault.
- The `println!` calls in `.`: output is a trace of `Output` values.
- `Layout`, `alloc_zeroed`, `dealloc`, the `Drop` impl and the raw-pointer `wrapping_add` accesses (src/main.rs:179-180, 236-241): replaced by a Dafny array indexed by `ptr`.
- `debugging::print_memory_block` and its call at the end of `main` (src/main.rs:69, 264-283): a debug dump to stdout.
- `Vec::with_capacity(16)` (src/main.rs:47): capacity only, with no effect on behaviour.
- Engine.Run: it is bounded by `fuel` iterations, because the Rust loop need not terminate. A run that would go on longer ends in `OutOfFuel`, and `RunMoreFuel` shows that any other outcome does not depend on the fuel.
- Engine.Interpret: it has the same fuel bound as `Run`. Its loop returns `OutOfFuel` where the Rust loop would keep going.
- Tape.Memory.constructor: the panic for `size < 8` is a precondition rather than a modelled error.
- `usize` arithmetic on `i` and on stack entries is unbounded here. The program is a `Vec<char>` held in memory, so its length is far below `usize::MAX`.
