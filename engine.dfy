/**
 * The execution engine: per-character dispatch (`handle_operation`), the
 * forward scan for a `]` (`find_matching_bracket`) and the interpreter loop
 * of `main` over the instruction index `i` and the loop-start stack.
 *
 * `Step` and `Run` are the specification; `HandleOperation`,
 * `FindMatchingBracket` and `Interpret` are the imperative code, proved
 * against them. `,` receives its byte from an input sequence and `.` appends
 * to an output trace instead of printing.
 */
module Engine {
  import opened Tape
  import opened Comments

  /** `MEMORY_SIZE`: the tape size `main` asks for. */
  const MEMORY_SIZE: nat := 128

  datatype Option<T> = None | Some(value: T)

  datatype Result<T, E> = Ok(value: T) | Err(error: E)

  /** `IdxOp`: what `handle_operation` tells the loop to do with `i`. */
  datatype IdxOp = SaveIdx | MoveIdx | BackIdx

  /** One line printed by `.`: a letter, or the decimal value of the byte. */
  datatype Output = Letter(ch: char) | Number(value: Byte)

  /** The result of dispatching one character. */
  datatype Effect = Effect(tape: TapeState, verdict: Option<IdxOp>, out: Option<Output>)

  /**
   * The ways the program panics while running:
   * - InputNotAByte: `get_input` read a line that is not a `u8` (or end of input);
   * - ScanPastEnd: `find_matching_bracket` indexed past the end of the program;
   * - EmptyLoopStack: `]` unwrapped the top of an empty stack.
   */
  datatype Fault = InputNotAByte | ScanPastEnd | EmptyLoopStack

  /**
   * The interpreter's state: the tape, the instruction index, the loop-start
   * stack (top at the end), the input lines still to be read (`None` for a line
   * that does not parse as a `u8`) and everything printed so far.
   */
  datatype Machine = Machine(tape: TapeState, i: nat, stack: seq<nat>,
                             inputs: seq<Option<Byte>>, outputs: seq<Output>)

  datatype Outcome =
    | Halted(final: Machine)
    | Faulted(fault: Fault, at: Machine)
    | OutOfFuel(at: Machine)

  /** The machine `main` starts from. */
  function Initial(inputs: seq<Option<Byte>>): Machine {
    Machine(Fresh(MEMORY_SIZE), 0, [], inputs, [])
  }

  /** How `.` prints a byte: as a character when it is an ASCII letter, else in decimal. */
  function Classify(v: Byte): (o: Output)
    ensures o.Letter? <==> (65 <= v <= 90 || 97 <= v <= 122)
    ensures o.Letter? ==> o.ch as int == v
    ensures o.Number? ==> o.value == v
  {
    var c := v as char;
    if 'A' <= c <= 'Z' || 'a' <= c <= 'z' then Letter(c) else Number(v)
  }

  /**
   * `handle_operation`: the tape effect of one character, the loop verdict and
   * what `.` prints. `input` is the byte `get_input` returned; only `,` uses it.
   */
  function Dispatch(c: char, t: TapeState, input: Byte): (e: Effect)
    requires t.Valid()
    ensures e.tape.Valid() && |e.tape.cells| == |t.cells|
    ensures e.verdict == Some(MoveIdx) <==> c == '[' && Current(t) == 0
    ensures e.verdict == Some(SaveIdx) <==> c == '[' && Current(t) != 0
    ensures e.verdict == Some(BackIdx) <==> c == ']'
    ensures e.out.Some? <==> c == '.'
    ensures e.out.Some? ==> e.out.value == Classify(Current(t))
    ensures c !in "<>+-," ==> e.tape == t
  {
    match c
    case '<' => Effect(ShiftedLeft(t), None, None)
    case '>' => Effect(ShiftedRight(t), None, None)
    case '+' => Effect(Incremented(t), None, None)
    case '-' => Effect(Decremented(t), None, None)
    case ',' => Effect(Written(t, input), None, None)
    case '.' => Effect(t, None, Some(Classify(Current(t))))
    case '[' => Effect(t, Some(if Current(t) == 0 then MoveIdx else SaveIdx), None)
    case ']' => Effect(t, Some(BackIdx), None)
    case _ => Effect(t, None, None)
  }

  /** Only `,` depends on the input byte. */
  lemma DispatchIgnoresInput(c: char, t: TapeState, a: Byte, b: Byte)
    requires t.Valid() && c != ','
    ensures Dispatch(c, t, a) == Dispatch(c, t, b)
  {
  }

  /** The first `]` at or after `from`, with no regard to nesting; `None` when there is none. */
  function FirstClose(prog: seq<char>, from: nat): (r: Option<nat>)
    ensures r.Some? ==> from <= r.value < |prog| && prog[r.value] == ']'
    ensures r.Some? ==> forall k :: from <= k < r.value ==> prog[k] != ']'
    ensures r.None? <==> forall k :: from <= k < |prog| ==> prog[k] != ']'
    decreases |prog| - from
  {
    if from >= |prog| then None
    else if prog[from] == ']' then Some(from)
    else FirstClose(prog, from + 1)
  }

  /** The scan is not nesting-aware: in `[[]]` it stops at the inner `]`. */
  lemma ScanIgnoresNesting()
    ensures FirstClose("[[]]", 0) == Some(2)
  {
  }

  /** `Vec::pop` with the result thrown away: a no-op on an empty stack. */
  function Pop(stack: seq<nat>): (r: seq<nat>)
    ensures stack == [] ==> r == []
    ensures stack != [] ==> r + [stack[|stack| - 1]] == stack
  {
    if stack == [] then [] else stack[..|stack| - 1]
  }

  /**
   * One iteration of the `while` loop in `main`: dispatch `prog[i]`, act on
   * the verdict, then `i += 1`.
   */
  function Step(prog: seq<char>, m: Machine): (r: Result<Machine, Fault>)
    requires m.tape.Valid() && m.i < |prog|
    ensures r.Ok? ==> r.value.tape.Valid() && |r.value.tape.cells| == |m.tape.cells|
    ensures r == Err(InputNotAByte) <==> prog[m.i] == ',' && (m.inputs == [] || m.inputs[0].None?)
    ensures r == Err(ScanPastEnd) <==>
              prog[m.i] == '[' && Current(m.tape) == 0 && FirstClose(prog, m.i).None?
    ensures r == Err(EmptyLoopStack) <==> prog[m.i] == ']' && m.stack == []
    ensures r.Ok? ==> r.value.outputs == m.outputs + (if prog[m.i] == '.' then [Classify(Current(m.tape))] else [])
  {
    var c := prog[m.i];
    if c == ',' && (m.inputs == [] || m.inputs[0].None?) then Err(InputNotAByte)
    else
      var input := if c == ',' then m.inputs[0].value else 0;
      var inputs := if c == ',' then m.inputs[1..] else m.inputs;
      var e := Dispatch(c, m.tape, input);
      var outputs := if e.out.Some? then m.outputs + [e.out.value] else m.outputs;
      match e.verdict
      case None => Ok(Machine(e.tape, m.i + 1, m.stack, inputs, outputs))
      case Some(MoveIdx) =>
        (match FirstClose(prog, m.i)
         case None => Err(ScanPastEnd)
         case Some(close) => Ok(Machine(e.tape, close + 1, Pop(m.stack), inputs, outputs)))
      case Some(SaveIdx) => Ok(Machine(e.tape, m.i + 1, m.stack + [m.i], inputs, outputs))
      case Some(BackIdx) =>
        if m.stack == [] then Err(EmptyLoopStack)
        else Ok(Machine(e.tape, m.stack[|m.stack| - 1] + 1, m.stack, inputs, outputs))
  }

  /**
   * Up to `fuel` iterations of the loop in `main`. `Run` is the loop test
   * `i < chars.len()`, `Iterate` the fuel bound and `StepThenRun` one pass of
   * the body followed by the rest of the run.
   */
  function Run(prog: seq<char>, m: Machine, fuel: nat): (r: Outcome)
    requires m.tape.Valid()
    ensures m.i >= |prog| ==> r == Halted(m)
    ensures r.Halted? ==> r.final.i >= |prog|
    ensures r.Faulted? ==> r.at.i < |prog|
    decreases fuel, 2
  {
    if m.i >= |prog| then Halted(m) else Iterate(prog, m, fuel)
  }

  /** Inside the program: out of fuel, or one more iteration. */
  function Iterate(prog: seq<char>, m: Machine, fuel: nat): (r: Outcome)
    requires m.tape.Valid() && m.i < |prog|
    ensures fuel == 0 ==> r == OutOfFuel(m)
    ensures r.Halted? ==> r.final.i >= |prog|
    ensures r.Faulted? ==> r.at.i < |prog|
    decreases fuel, 1
  {
    if fuel == 0 then OutOfFuel(m) else StepThenRun(prog, m, fuel)
  }

  /** One iteration of the loop body, then the rest of the run on what it left. */
  function StepThenRun(prog: seq<char>, m: Machine, fuel: nat): (r: Outcome)
    requires m.tape.Valid() && m.i < |prog| && 0 < fuel
    ensures r.Halted? ==> r.final.i >= |prog|
    ensures r.Faulted? ==> r.at.i < |prog|
    decreases fuel, 0
  {
    match Step(prog, m)
    case Err(f) => Faulted(f, m)
    case Ok(next) => Run(prog, next, fuel - 1)
  }

  /** A run at an instruction that does not fault is the run, one step later, from its result. */
  lemma RunUnfold(prog: seq<char>, m: Machine, fuel: nat)
    requires m.tape.Valid() && m.i < |prog| && 0 < fuel && Step(prog, m).Ok?
    ensures Run(prog, m, fuel) == Run(prog, Step(prog, m).value, fuel - 1)
  {
    assert Run(prog, m, fuel) == Iterate(prog, m, fuel) == StepThenRun(prog, m, fuel);
  }

  /** A run at an instruction that faults stops there with that fault. */
  lemma RunFault(prog: seq<char>, m: Machine, fuel: nat)
    requires m.tape.Valid() && m.i < |prog| && 0 < fuel && Step(prog, m).Err?
    ensures Run(prog, m, fuel) == Faulted(Step(prog, m).error, m)
  {
    assert Run(prog, m, fuel) == Iterate(prog, m, fuel) == StepThenRun(prog, m, fuel);
  }

  // ---------------------------------------------------------------------------
  // Properties of loop control

  /**
   * What `[` and `]` do to `i` and the stack: a taken `[` pushes its index, a
   * skipped one jumps past the first `]` and pops, and `]` resumes right after
   * the `[` on top of the stack, without popping it and without re-testing it.
   */
  lemma LoopControl(prog: seq<char>, m: Machine)
    requires m.tape.Valid() && m.i < |prog|
    ensures prog[m.i] == '[' && Current(m.tape) != 0 ==>
              Step(prog, m) == Ok(m.(i := m.i + 1, stack := m.stack + [m.i]))
    ensures prog[m.i] == '[' && Current(m.tape) == 0 && FirstClose(prog, m.i).Some? ==>
              var close := FirstClose(prog, m.i).value;
              && prog[close] == ']' && m.i < close
              && Step(prog, m) == Ok(m.(i := close + 1, stack := Pop(m.stack)))
    ensures prog[m.i] == ']' && m.stack != [] ==>
              Step(prog, m) == Ok(m.(i := m.stack[|m.stack| - 1] + 1))
  {
    var c := prog[m.i];
    if c == '[' || c == ']' {
      var e := Dispatch(c, m.tape, 0);
      assert e.tape == m.tape && e.out.None?;
    }
  }

  /**
   * Every instruction other than `[` and `]` applies its tape effect and
   * advances `i` by one, leaving the stack alone: `,` consumes one input line
   * and writes it to the current cell, `.` appends the classified cell to the
   * output, and any character outside `<>+-,.[]` does nothing else.
   */
  lemma PlainInstructionStep(prog: seq<char>, m: Machine)
    requires m.tape.Valid() && m.i < |prog|
    ensures prog[m.i] == '<' ==> Step(prog, m) == Ok(m.(tape := ShiftedLeft(m.tape), i := m.i + 1))
    ensures prog[m.i] == '>' ==> Step(prog, m) == Ok(m.(tape := ShiftedRight(m.tape), i := m.i + 1))
    ensures prog[m.i] == '+' ==> Step(prog, m) == Ok(m.(tape := Incremented(m.tape), i := m.i + 1))
    ensures prog[m.i] == '-' ==> Step(prog, m) == Ok(m.(tape := Decremented(m.tape), i := m.i + 1))
    ensures prog[m.i] == ',' && m.inputs != [] && m.inputs[0].Some? ==>
              Step(prog, m) == Ok(m.(tape := Written(m.tape, m.inputs[0].value), i := m.i + 1,
                                     inputs := m.inputs[1..]))
    ensures prog[m.i] == '.' ==>
              Step(prog, m) == Ok(m.(i := m.i + 1, outputs := m.outputs + [Classify(Current(m.tape))]))
    ensures prog[m.i] !in "<>+-,.[]" ==> Step(prog, m) == Ok(m.(i := m.i + 1))
  {
  }

  /** Every entry of the stack is the index of a `[` of the program. */
  ghost predicate WellFormed(prog: seq<char>, m: Machine) {
    && m.tape.Valid()
    && m.i <= |prog|
    && forall k :: 0 <= k < |m.stack| ==> m.stack[k] < |prog| && prog[m.stack[k]] == '['
  }

  /** A step keeps the stack made of `[` indices and `i` within `[0, |prog|]`. */
  lemma StepPreservesWellFormed(prog: seq<char>, m: Machine)
    requires WellFormed(prog, m) && m.i < |prog| && Step(prog, m).Ok?
    ensures WellFormed(prog, Step(prog, m).value)
  {
  }

  /** A run that stopped before its fuel ran out gives the same outcome with more fuel. */
  lemma {:induction false} RunMoreFuel(prog: seq<char>, m: Machine, fuel: nat, more: nat)
    requires m.tape.Valid() && fuel <= more
    requires !Run(prog, m, fuel).OutOfFuel?
    ensures Run(prog, m, more) == Run(prog, m, fuel)
    decreases fuel
  {
    if m.i < |prog| {
      assert Run(prog, m, fuel) == Iterate(prog, m, fuel);
      match Step(prog, m)
      case Err(_) =>
        RunFault(prog, m, fuel);
        RunFault(prog, m, more);
      case Ok(next) =>
        RunUnfold(prog, m, fuel);
        RunUnfold(prog, m, more);
        RunMoreFuel(prog, next, fuel - 1, more - 1);
    }
  }

  /**
   * A loop whose `[` was entered and whose body up to the next `]` holds no
   * `[`, `]` or `,` is never left: every `]` sends execution back to the
   * instruction after the `[`, whose test never runs again.
   */
  lemma {:induction false} LoopBodyRepeatsForever(prog: seq<char>, open: nat, close: nat, m: Machine, fuel: nat)
    requires open < close < |prog| && prog[close] == ']'
    requires forall k :: open < k < close ==> prog[k] !in "[],"
    requires m.tape.Valid() && m.stack != [] && m.stack[|m.stack| - 1] == open
    requires open < m.i <= close
    ensures Run(prog, m, fuel).OutOfFuel?
    decreases fuel
  {
    if fuel > 0 {
      var next := Step(prog, m).value;
      RunUnfold(prog, m, fuel);
      if m.i < close {
        PlainInstructionStep(prog, m);
        assert next.i == m.i + 1 && next.stack == m.stack;
      } else {
        assert next.i == open + 1 && next.stack == m.stack;
      }
      LoopBodyRepeatsForever(prog, open, close, next, fuel - 1);
    }
  }

  /** `+[-]`, the simplest taken loop. */
  const SPIN: seq<char> := "+[-]"

  /** `+[-]` runs out of any fuel: it never halts. */
  lemma TakenLoopNeverExits(inputs: seq<Option<Byte>>, fuel: nat)
    ensures Run(SPIN, Initial(inputs), fuel).OutOfFuel?
  {
    var m0 := Initial(inputs);
    if fuel > 0 {
      var m1 := Step(SPIN, m0).value;
      assert m1.i == 1 && Current(m1.tape) == 1;
      RunUnfold(SPIN, m0, fuel);
      if fuel > 1 {
        var m2 := Step(SPIN, m1).value;
        RunUnfold(SPIN, m1, fuel - 1);
        LoopBodyRepeatsForever(SPIN, 1, 3, m2, fuel - 2);
      }
    }
  }

  /** A run at a `+` is the run, one step later, from the incremented tape. */
  lemma RunPlus(prog: seq<char>, m: Machine, fuel: nat)
    requires m.tape.Valid() && m.i < |prog| && prog[m.i] == '+' && 0 < fuel
    ensures Run(prog, m, fuel) == Run(prog, m.(tape := Incremented(m.tape), i := m.i + 1), fuel - 1)
  {
    PlainInstructionStep(prog, m);
    RunUnfold(prog, m, fuel);
  }

  /** A run at a `[` on a non-zero cell is the run, one step later, inside the loop. */
  lemma RunTakenOpen(prog: seq<char>, m: Machine, fuel: nat)
    requires m.tape.Valid() && m.i < |prog| && prog[m.i] == '[' && Current(m.tape) != 0 && 0 < fuel
    ensures Run(prog, m, fuel) == Run(prog, m.(i := m.i + 1, stack := m.stack + [m.i]), fuel - 1)
  {
    LoopControl(prog, m);
    RunUnfold(prog, m, fuel);
  }

  /** The machine after `n` `+`s from `m`: the tape incremented `n` times, `i` advanced by `n`. */
  function AfterPluses(m: Machine, n: nat): (r: Machine)
    requires m.tape.Valid()
    ensures r.tape.Valid() && r.tape == IncrementedTimes(m.tape, n) && r.i == m.i + n
    ensures r.stack == m.stack && r.inputs == m.inputs && r.outputs == m.outputs
  {
    if n == 0 then m
    else
      var before := AfterPluses(m, n - 1);
      before.(tape := Incremented(before.tape), i := before.i + 1)
  }

  /** Running `n` consecutive `+`s takes `n` steps and reaches `AfterPluses(m, n)`. */
  lemma {:induction false} RunPluses(prog: seq<char>, m: Machine, n: nat, fuel: nat)
    requires m.tape.Valid() && m.i + n <= |prog|
    requires forall k :: m.i <= k < m.i + n ==> prog[k] == '+'
    ensures Run(prog, m, fuel + n) == Run(prog, AfterPluses(m, n), fuel)
  {
    if n > 0 {
      var before := AfterPluses(m, n - 1);
      assert AfterPluses(m, n) == before.(tape := Incremented(before.tape), i := before.i + 1);
      RunPluses(prog, m, n - 1, fuel + 1);
      RunPlus(prog, before, fuel + 1);
    }
  }

  /** The cell-doubling program: eight times, add eight to the second cell. */
  const DOUBLING: seq<char> := "++++++++[>++++++++<-]>."

  /** `n` `+`s and then a `[` that the increments make taken: the run ends up inside the loop. */
  lemma RunPlusesIntoLoop(prog: seq<char>, m: Machine, n: nat, fuel: nat)
    requires m.tape.Valid() && m.i + n < |prog|
    requires forall k :: m.i <= k < m.i + n ==> prog[k] == '+'
    requires prog[m.i + n] == '[' && Current(AfterPluses(m, n).tape) != 0
    ensures var a := AfterPluses(m, n);
            Run(prog, m, fuel + 1 + n) == Run(prog, a.(i := a.i + 1, stack := a.stack + [a.i]), fuel)
  {
    RunPluses(prog, m, n, fuel + 1);
    RunTakenOpen(prog, AfterPluses(m, n), fuel + 1);
  }

  /** The doubling program's first nine steps: eight `+`s, then its `[` is entered with 8 in cell 0. */
  lemma DoublingEntersLoop(inputs: seq<Option<Byte>>, fuel: nat)
    ensures var m8 := AfterPluses(Initial(inputs), 8);
            Run(DOUBLING, Initial(inputs), fuel + 9)
              == Run(DOUBLING, m8.(i := m8.i + 1, stack := m8.stack + [m8.i]), fuel)
  {
    IncrementedTimesValue(Initial(inputs).tape, 8);
    RunPlusesIntoLoop(DOUBLING, Initial(inputs), 8, fuel);
  }

  /**
   * As written, the doubling program never reaches its final `.`: it enters
   * its loop with 8 in cell 0 and, since `]` never re-tests, runs the body forever.
   */
  lemma DoublingNeverPrints(inputs: seq<Option<Byte>>, fuel: nat)
    ensures Run(DOUBLING, Initial(inputs), fuel).OutOfFuel?
  {
    var m0, m8 := Initial(inputs), AfterPluses(Initial(inputs), 8);
    DoublingEntersLoop(inputs, fuel);
    LoopBodyRepeatsForever(DOUBLING, 8, 20, m8.(i := m8.i + 1, stack := m8.stack + [m8.i]), fuel);
    if !Run(DOUBLING, m0, fuel).OutOfFuel? {
      RunMoreFuel(DOUBLING, m0, fuel, fuel + 9);
    }
  }

  // ---------------------------------------------------------------------------
  // The loop control the doc comments of `IdxOp` describe

  /** How far `c` moves the bracket depth: `[` opens a level and `]` closes one. */
  function Delta(c: char): int {
    if c == '[' then 1 else if c == ']' then -1 else 0
  }

  /** The bracket depth at the end of `s`: its `[`s minus its `]`s. */
  function Nesting(s: seq<char>): int {
    if s == [] then 0 else Delta(s[0]) + Nesting(s[1..])
  }

  lemma NestingUnfold(prog: seq<char>, from: nat, p: nat)
    requires from < p <= |prog|
    ensures Nesting(prog[from..p]) == Delta(prog[from]) + Nesting(prog[from + 1..p])
  {
    assert prog[from..p][1..] == prog[from + 1..p];
  }

  /**
   * The `]` matching a `[` whose body starts at `from`, `depth` loops deep
   * inside it; `None` when the loop is never closed. This is what the
   * `IdxOp::MoveIdx` doc comment asks the skip path to find.
   */
  function MatchingClose(prog: seq<char>, from: nat, depth: nat): (r: Option<nat>)
    ensures r.Some? ==> from <= r.value < |prog| && prog[r.value] == ']'
    decreases |prog| - from
  {
    if from >= |prog| then None
    else if prog[from] == ']' then
      if depth == 0 then Some(from) else MatchingClose(prog, from + 1, depth - 1)
    else if prog[from] == '[' then MatchingClose(prog, from + 1, depth + 1)
    else MatchingClose(prog, from + 1, depth)
  }

  /**
   * `MatchingClose` finds the first `]` at which the depth, counted from
   * `depth` at `from`, is back to 0: at every `]` before it, and at every `]`
   * at all when there is none, the depth is still positive.
   */
  lemma {:induction false} MatchingCloseBalanced(prog: seq<char>, from: nat, depth: nat)
    ensures var r := MatchingClose(prog, from, depth);
            r.Some? ==> depth + Nesting(prog[from..r.value]) == 0
    ensures var r := MatchingClose(prog, from, depth);
            forall p :: from <= p < (if r.Some? then r.value else |prog|) && prog[p] == ']' ==>
              depth + Nesting(prog[from..p]) > 0
    decreases |prog| - from
  {
    if from < |prog| && !(prog[from] == ']' && depth == 0) {
      var inner := depth + Delta(prog[from]);
      assert inner >= 0;
      MatchingCloseBalanced(prog, from + 1, inner);
      assert MatchingClose(prog, from, depth) == MatchingClose(prog, from + 1, inner);
      forall p | from < p <= |prog|
        ensures depth + Nesting(prog[from..p]) == inner + Nesting(prog[from + 1..p])
      {
        NestingUnfold(prog, from, p);
      }
    }
  }

  /** Over a body with no `[`, the matching `]` is the first `]`: the two scans agree. */
  lemma {:induction false} MatchingCloseFlat(prog: seq<char>, from: nat)
    requires forall k :: from <= k < |prog| ==> prog[k] != '['
    ensures MatchingClose(prog, from, 0) == FirstClose(prog, from)
    decreases |prog| - from
  {
    if from < |prog| && prog[from] != ']' {
      MatchingCloseFlat(prog, from + 1);
    }
  }

  /**
   * The corrected step. A skipped `[` goes past its matching `]` and leaves
   * the stack alone, since it pushed nothing. `]` runs the loop test again:
   * on a non-zero cell it resumes after the `[` on top of the stack, and on a
   * zero cell it pops that `[` and continues after the `]`. Every other
   * instruction, and a taken `[`, behaves as in `Step`; `inc` and `dec` keep
   * their as-written cell 0.
   */
  function StepCorrected(prog: seq<char>, m: Machine): (r: Result<Machine, Fault>)
    requires m.tape.Valid() && m.i < |prog|
    ensures prog[m.i] !in "[]" ==> r == Step(prog, m)
    ensures prog[m.i] == '[' && Current(m.tape) != 0 ==> r == Step(prog, m)
    ensures prog[m.i] == '[' && Current(m.tape) == 0 ==>
              match MatchingClose(prog, m.i + 1, 0)
              case None => r == Err(ScanPastEnd)
              case Some(close) => r == Ok(m.(i := close + 1))
    ensures prog[m.i] == ']' && m.stack == [] ==> r == Err(EmptyLoopStack)
    ensures prog[m.i] == ']' && m.stack != [] && Current(m.tape) != 0 ==> r == Step(prog, m)
    ensures prog[m.i] == ']' && m.stack != [] && Current(m.tape) == 0 ==>
              r == Ok(m.(i := m.i + 1, stack := Pop(m.stack)))
  {
    if prog[m.i] == '[' && Current(m.tape) == 0 then
      match MatchingClose(prog, m.i + 1, 0)
      case None => Err(ScanPastEnd)
      case Some(close) => Ok(m.(i := close + 1))
    else if prog[m.i] == ']' && m.stack != [] && Current(m.tape) == 0 then
      Ok(m.(i := m.i + 1, stack := Pop(m.stack)))
    else Step(prog, m)
  }

  /**
   * The corrected `]` does what the `IdxOp::BackIdx` doc comment asks: when
   * the `[` on top of the stack matches it, the step is the same as popping
   * that `[` and going back to run it again.
   */
  lemma CloseRetestsOpen(prog: seq<char>, m: Machine)
    requires m.tape.Valid() && m.i < |prog| && prog[m.i] == ']' && m.stack != []
    requires var open := m.stack[|m.stack| - 1];
             open < |prog| && prog[open] == '[' && MatchingClose(prog, open + 1, 0) == Some(m.i)
    ensures var open := m.stack[|m.stack| - 1];
            StepCorrected(prog, m) == StepCorrected(prog, m.(i := open, stack := Pop(m.stack)))
  {
    var open := m.stack[|m.stack| - 1];
    var back := m.(i := open, stack := Pop(m.stack));
    if Current(m.tape) != 0 {
      LoopControl(prog, m);
      LoopControl(prog, back);
      assert StepCorrected(prog, back) == Ok(back.(i := open + 1, stack := Pop(m.stack) + [open]));
      assert Pop(m.stack) + [open] == m.stack;
    } else {
      assert StepCorrected(prog, back) == Ok(back.(i := m.i + 1));
    }
  }

  /** `Run` with the corrected step, in the same three layers as `Run`. */
  function RunCorrected(prog: seq<char>, m: Machine, fuel: nat): (r: Outcome)
    requires m.tape.Valid()
    ensures m.i >= |prog| ==> r == Halted(m)
    ensures r.Halted? ==> r.final.i >= |prog|
    ensures r.Faulted? ==> r.at.i < |prog|
    decreases fuel, 2
  {
    if m.i >= |prog| then Halted(m) else IterateCorrected(prog, m, fuel)
  }

  function IterateCorrected(prog: seq<char>, m: Machine, fuel: nat): (r: Outcome)
    requires m.tape.Valid() && m.i < |prog|
    ensures fuel == 0 ==> r == OutOfFuel(m)
    ensures r.Halted? ==> r.final.i >= |prog|
    ensures r.Faulted? ==> r.at.i < |prog|
    decreases fuel, 1
  {
    if fuel == 0 then OutOfFuel(m) else StepCorrectedThenRun(prog, m, fuel)
  }

  function StepCorrectedThenRun(prog: seq<char>, m: Machine, fuel: nat): (r: Outcome)
    requires m.tape.Valid() && m.i < |prog| && 0 < fuel
    ensures r.Halted? ==> r.final.i >= |prog|
    ensures r.Faulted? ==> r.at.i < |prog|
    decreases fuel, 0
  {
    match StepCorrected(prog, m)
    case Err(f) => Faulted(f, m)
    case Ok(next) => RunCorrected(prog, next, fuel - 1)
  }

  /** A corrected run at an instruction that does not fault is the corrected run from its result. */
  lemma RunCorrectedUnfold(prog: seq<char>, m: Machine, fuel: nat)
    requires m.tape.Valid() && m.i < |prog| && 0 < fuel && StepCorrected(prog, m).Ok?
    ensures RunCorrected(prog, m, fuel) == RunCorrected(prog, StepCorrected(prog, m).value, fuel - 1)
  {
    assert RunCorrected(prog, m, fuel) == IterateCorrected(prog, m, fuel) == StepCorrectedThenRun(prog, m, fuel);
  }

  /**
   * With the loop test run again, `+[-]` leaves its loop once cell 0 is 0: it
   * halts after four steps with an empty stack.
   */
  lemma CorrectedLoopExits(inputs: seq<Option<Byte>>)
    ensures var r := RunCorrected(SPIN, Initial(inputs), 4);
            r.Halted? && r.final.tape.cells[0] == 0 && r.final.stack == []
  {
    var m0 := Initial(inputs);
    var m1 := m0.(tape := Incremented(m0.tape), i := 1);
    var m2 := m1.(i := 2, stack := m1.stack + [1]);
    var m3 := m2.(tape := Decremented(m2.tape), i := 3);
    PlainInstructionStep(SPIN, m0);
    RunCorrectedUnfold(SPIN, m0, 4);
    LoopControl(SPIN, m1);
    RunCorrectedUnfold(SPIN, m1, 3);
    PlainInstructionStep(SPIN, m2);
    RunCorrectedUnfold(SPIN, m2, 2);
    assert Current(m3.tape) == 0;
    RunCorrectedUnfold(SPIN, m3, 1);
  }

  /** Nested loops end too: `+[[-]]` halts after six steps, with both loops popped. */
  lemma CorrectedNestedLoopExits(inputs: seq<Option<Byte>>)
    ensures var r := RunCorrected("+[[-]]", Initial(inputs), 6);
            r.Halted? && r.final.tape == Initial(inputs).tape && r.final.stack == []
  {
    var m0 := Initial(inputs);
    NestedLoopsEntered(inputs);
    NestedLoopsLeft(m0.(tape := Incremented(m0.tape), i := 3, stack := [1, 2]));
    IncDecInverse(m0.tape);
  }

  /** The first three steps of `+[[-]]` set cell 0 to 1 and enter both loops. */
  lemma NestedLoopsEntered(inputs: seq<Option<Byte>>)
    ensures var m0 := Initial(inputs);
            RunCorrected("+[[-]]", m0, 6) ==
            RunCorrected("+[[-]]", m0.(tape := Incremented(m0.tape), i := 3, stack := [1, 2]), 3)
  {
    var prog, m0 := "+[[-]]", Initial(inputs);
    var m1 := m0.(tape := Incremented(m0.tape), i := 1);
    var m2 := m1.(i := 2, stack := m1.stack + [1]);
    PlainInstructionStep(prog, m0);
    RunCorrectedUnfold(prog, m0, 6);
    LoopControl(prog, m1);
    RunCorrectedUnfold(prog, m1, 5);
    LoopControl(prog, m2);
    RunCorrectedUnfold(prog, m2, 4);
    assert m2.stack + [2] == [1, 2];
  }

  /** From inside both loops with cell 0 at 1, `-]]` zeroes it and leaves both loops. */
  lemma NestedLoopsLeft(m: Machine)
    requires m.tape.Valid() && m.tape.ptr == 0 && m.tape.cells[0] == 1 && m.i == 3 && m.stack == [1, 2]
    ensures RunCorrected("+[[-]]", m, 3) == Halted(m.(tape := Decremented(m.tape), i := 6, stack := []))
  {
    var prog := "+[[-]]";
    var m4 := m.(tape := Decremented(m.tape), i := 4);
    var m5 := m4.(i := 5, stack := Pop(m4.stack));
    PlainInstructionStep(prog, m);
    RunCorrectedUnfold(prog, m, 3);
    assert Current(m4.tape) == 0;
    RunCorrectedUnfold(prog, m4, 2);
    RunCorrectedUnfold(prog, m5, 1);
    assert Pop(m5.stack) == [];
  }

  /** The start state of `+[>`: at 0, no open loop, cursor on cell 0, cells 0 and 1 zero. */
  predicate Blank(m: Machine) {
    m.tape.Valid() && m.tape.ptr == 0 && m.tape.cells[0] == 0 && m.tape.cells[1] == 0 && m.i == 0 && m.stack == []
  }

  /** What `+[>` leaves: cell 0 at 1, the loop at 1 entered, the cursor on cell 1. */
  function Entered(m: Machine): Machine
    requires m.tape.Valid()
  {
    m.(tape := ShiftedRight(Incremented(m.tape)), i := 3, stack := m.stack + [1])
  }

  /** `Run` through a leading `+[>`. */
  lemma OuterLoopEntered(prog: seq<char>, m: Machine, fuel: nat)
    requires 3 <= |prog| && prog[0] == '+' && prog[1] == '[' && prog[2] == '>' && 3 <= fuel
    requires Blank(m)
    ensures Run(prog, m, fuel) == Run(prog, Entered(m), fuel - 3)
  {
    var m1 := m.(tape := Incremented(m.tape), i := m.i + 1);
    var m2 := m1.(i := m1.i + 1, stack := m1.stack + [m1.i]);
    RunPlus(prog, m, fuel);
    RunTakenOpen(prog, m1, fuel - 1);
    PlainInstructionStep(prog, m2);
    RunUnfold(prog, m2, fuel - 2);
    assert m2.(tape := ShiftedRight(m2.tape), i := m2.i + 1) == Entered(m);
  }

  /** `RunCorrected` through a leading `+[>`. */
  lemma OuterLoopEnteredCorrected(prog: seq<char>, m: Machine, fuel: nat)
    requires 3 <= |prog| && prog[0] == '+' && prog[1] == '[' && prog[2] == '>' && 3 <= fuel
    requires Blank(m)
    ensures RunCorrected(prog, m, fuel) == RunCorrected(prog, Entered(m), fuel - 3)
  {
    var m1 := m.(tape := Incremented(m.tape), i := 1);
    var m2 := m1.(i := 2, stack := m1.stack + [1]);
    PlainInstructionStep(prog, m);
    RunCorrectedUnfold(prog, m, fuel);
    LoopControl(prog, m1);
    RunCorrectedUnfold(prog, m1, fuel - 1);
    PlainInstructionStep(prog, m2);
    RunCorrectedUnfold(prog, m2, fuel - 2);
    assert m2.(tape := ShiftedRight(m2.tape), i := 3) == Entered(m);
  }

  /**
   * A skipped `[` pops the stack although it pushed nothing: in `+[>[]]` the
   * empty inner loop is skipped (the cursor is on cell 1, which is 0), its `[`
   * pops the outer loop's entry, and the outer `]` then finds an empty stack.
   */
  lemma SkipPopsEnclosingLoop(inputs: seq<Option<Byte>>)
    ensures var r := Run("+[>[]]", Initial(inputs), 5);
            r.Faulted? && r.fault == EmptyLoopStack && r.at.i == 5
  {
    var prog, m3 := "+[>[]]", Entered(Initial(inputs));
    var m5 := m3.(i := 5, stack := []);
    OuterLoopEntered(prog, Initial(inputs), 5);
    LoopControl(prog, m3);
    assert Pop(m3.stack) == [];
    assert Step(prog, m3) == Ok(m5);
    RunUnfold(prog, m3, 2);
    assert Step(prog, m5) == Err(EmptyLoopStack);
    RunFault(prog, m5, 1);
  }

  /** Under the corrected step, `[]` on a zero cell is skipped in one step, leaving the stack alone. */
  lemma CorrectedSkipEmptyLoop(prog: seq<char>, m: Machine, fuel: nat)
    requires m.tape.Valid() && m.i + 1 < |prog| && prog[m.i] == '[' && prog[m.i + 1] == ']'
    requires Current(m.tape) == 0 && 0 < fuel
    ensures RunCorrected(prog, m, fuel) == RunCorrected(prog, m.(i := m.i + 2), fuel - 1)
  {
    assert MatchingClose(prog, m.i + 1, 0) == Some(m.i + 1);
    RunCorrectedUnfold(prog, m, fuel);
  }

  /** Under the corrected step, `]` on a zero cell pops its loop and continues after itself. */
  lemma CorrectedLoopEnds(prog: seq<char>, m: Machine, fuel: nat)
    requires m.tape.Valid() && m.i < |prog| && prog[m.i] == ']' && m.stack != []
    requires Current(m.tape) == 0 && 0 < fuel
    ensures RunCorrected(prog, m, fuel) == RunCorrected(prog, m.(i := m.i + 1, stack := Pop(m.stack)), fuel - 1)
  {
    RunCorrectedUnfold(prog, m, fuel);
  }

  /** With the corrected step, `+[>[]]` halts after five steps with an empty stack. */
  lemma CorrectedSkipKeepsEnclosingLoop(inputs: seq<Option<Byte>>)
    ensures var r := RunCorrected("+[>[]]", Initial(inputs), 5);
            r.Halted? && r.final.stack == []
  {
    var prog, m3 := "+[>[]]", Entered(Initial(inputs));
    OuterLoopEnteredCorrected(prog, Initial(inputs), 5);
    assert Current(m3.tape) == 0;
    CorrectedSkipEmptyLoop(prog, m3, 2);
    CorrectedLoopEnds(prog, m3.(i := 5), 1);
    assert Pop(m3.stack) == [];
  }

  /**
   * The first-`]` scan skips `[[]]` only up to its inner `]`, so the outer `]`
   * is then reached with an empty stack.
   */
  lemma SkipStopsAtInnerClose(inputs: seq<Option<Byte>>)
    ensures var r := Run("[[]]", Initial(inputs), 2);
            r.Faulted? && r.fault == EmptyLoopStack && r.at.i == 3
  {
  }

  /** With the matching scan, `[[]]` on a zero cell is skipped whole in one step. */
  lemma CorrectedSkipsNestedLoop(inputs: seq<Option<Byte>>)
    ensures MatchingClose("[[]]", 1, 0) == Some(3)
    ensures RunCorrected("[[]]", Initial(inputs), 1) == Halted(Initial(inputs).(i := 4))
  {
  }

  /** `+++.` prints the number 3 (not a letter) and leaves 3 in cell 0. */
  lemma PlusThreeExample(inputs: seq<Option<Byte>>)
    ensures var r := Run("+++.", Initial(inputs), 4);
            r.Halted? && r.final.outputs == [Number(3)] && r.final.tape.cells[0] == 3
  {
  }

  /** `]` with no open loop faults instead of reading an empty stack. */
  lemma LoneCloseExample(inputs: seq<Option<Byte>>)
    ensures Run("]", Initial(inputs), 1) == Faulted(EmptyLoopStack, Initial(inputs))
  {
  }

  /** `[` on a zero cell with no `]` after it faults instead of scanning past the end. */
  lemma LoneOpenExample(inputs: seq<Option<Byte>>)
    ensures Run("[", Initial(inputs), 1) == Faulted(ScanPastEnd, Initial(inputs))
  {
  }

  /**
   * An unbalanced program can leave a loop it entered: in `+[>[]` the skipped
   * inner `[` pops the outer entry and jumps past the end, so the run halts
   * after four steps.
   */
  lemma UnbalancedLoopHalts(inputs: seq<Option<Byte>>)
    ensures var r := Run("+[>[]", Initial(inputs), 5);
            r.Halted? && r.final.i == 5 && r.final.stack == []
  {
    var prog, m3 := "+[>[]", Entered(Initial(inputs));
    OuterLoopEntered(prog, Initial(inputs), 5);
    LoopControl(prog, m3);
    RunUnfold(prog, m3, 2);
  }

  // ---------------------------------------------------------------------------
  // The imperative code

  /** `handle_operation` on a live `Memory`; `input` is what `get_input` returned. */
  method HandleOperation(c: char, memory: Memory, input: Byte) returns (verdict: Option<IdxOp>, out: Option<Output>)
    requires memory.Valid()
    modifies memory, memory.cells
    ensures memory.Valid()
    ensures var e := Dispatch(c, old(memory.State()), input);
            memory.State() == e.tape && verdict == e.verdict && out == e.out
  {
    verdict, out := None, None;
    match c
    case '<' => memory.MoveLeft();
    case '>' => memory.MoveRight();
    case '+' => memory.Inc();
    case '-' => memory.Dec();
    case ',' => memory.Set(input);
    case '.' =>
      var v := memory.Get();
      var ch := v as char;
      if 'A' <= ch <= 'Z' || 'a' <= ch <= 'z' {
        out := Some(Letter(ch));
      } else {
        out := Some(Number(v));
      }
    case '[' =>
      var v := memory.Get();
      if v == 0 {
        verdict := Some(MoveIdx);
      } else {
        verdict := Some(SaveIdx);
      }
    case ']' => verdict := Some(BackIdx);
    case _ =>
  }

  /**
   * `find_matching_bracket`: advance from `from` to the first `]`. Where the
   * Rust loop would index past the end and panic, this returns `None`.
   */
  method FindMatchingBracket(chars: seq<char>, from: nat) returns (r: Option<nat>)
    ensures r == FirstClose(chars, from)
  {
    var i := from;
    while i < |chars| && chars[i] != ']'
      invariant from <= i
      invariant FirstClose(chars, from) == FirstClose(chars, i)
      decreases |chars| - i
    {
      i := i + 1;
    }
    if i < |chars| {
      r := Some(i);
    } else {
      r := None;
    }
  }

  /**
   * One pass of the body of the loop in `main`: dispatch `chars[i]` on the
   * live memory, act on the verdict, then `i += 1`. On a panic it returns the
   * fault, with the memory untouched.
   */
  method ExecuteStep(chars: seq<char>, memory: Memory, i: nat, loopMng: seq<nat>,
                     pending: seq<Option<Byte>>, printed: seq<Output>)
    returns (fault: Option<Fault>, i': nat, loopMng': seq<nat>,
             pending': seq<Option<Byte>>, printed': seq<Output>)
    requires memory.Valid() && i < |chars|
    modifies memory, memory.cells
    ensures memory.Valid()
    ensures var r := Step(chars, Machine(old(memory.State()), i, loopMng, pending, printed));
            if fault.Some? then r == Err(fault.value) && memory.State() == old(memory.State())
            else r == Ok(Machine(memory.State(), i', loopMng', pending', printed'))
  {
    fault, i', loopMng', pending', printed' := None, i, loopMng, pending, printed;
    var input: Byte := 0;
    if chars[i] == ',' {
      if pending == [] || pending[0].None? {
        fault := Some(InputNotAByte);
        return;
      }
      input := pending[0].value;
      pending' := pending[1..];
    }
    var verdict, out := HandleOperation(chars[i], memory, input);
    if out.Some? {
      printed' := printed + [out.value];
    }
    if verdict.Some? {
      match verdict.value
      case MoveIdx =>
        var close := FindMatchingBracket(chars, i);
        if close.None? {
          fault := Some(ScanPastEnd);
          return;
        }
        i' := close.value;
        loopMng' := Pop(loopMng);
      case SaveIdx =>
        loopMng' := loopMng + [i];
      case BackIdx =>
        if loopMng == [] {
          fault := Some(EmptyLoopStack);
          return;
        }
        i' := loopMng[|loopMng| - 1];
    }
    i' := i' + 1;
  }

  /**
   * Lines 40-67 of `main`: strip comments, make a fresh tape and run the
   * interpreter loop for at most `fuel` iterations.
   */
  method Interpret(source: string, inputs: seq<Option<Byte>>, fuel: nat) returns (outcome: Outcome)
    ensures outcome == Run(Cleaned(source), Initial(inputs), fuel)
  {
    var chars := RemoveComments(source);
    var memory := new Memory(MEMORY_SIZE);
    var loopMng: seq<nat> := [];
    var i: nat := 0;
    var pending := inputs;
    var printed: seq<Output> := [];
    var left := fuel;
    while i < |chars|
      invariant memory.Valid() && memory.size == MEMORY_SIZE
      invariant Run(chars, Initial(inputs), fuel)
             == Run(chars, Machine(memory.State(), i, loopMng, pending, printed), left)
      decreases left
    {
      var before := Machine(memory.State(), i, loopMng, pending, printed);
      if left == 0 {
        return OutOfFuel(before);
      }
      var fault;
      fault, i, loopMng, pending, printed := ExecuteStep(chars, memory, i, loopMng, pending, printed);
      if fault.Some? {
        RunFault(chars, before, left);
        return Faulted(fault.value, before);
      }
      RunUnfold(chars, before, left);
      left := left - 1;
    }
    outcome := Halted(Machine(memory.State(), i, loopMng, pending, printed));
  }
}
