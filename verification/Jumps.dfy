/** What the emitted jumps and stack fills do on the machine. */
module Jumps {
  import opened Bytes
  import opened Evm
  import opened Assembler
  import opened Straight
  import opened BoundedLoop
  import opened Emission
  import opened Draws
  import opened Strategies

  // ---------------------------------------------------------------- single steps

  lemma JumpStep(m: Machine, code: seq<byte>, st: State, s: seq<Word>, d: Word)
    requires OpAt(code, st.pc) == JUMP && st.stack == s + [d] && |s| < STACK_LIMIT && st.gas >= 8
    ensures Step(m, code, st) == JumpTo(code, d, State(st.pc + 1, st.gas - 8, s, st.world))
  {
    StepCore(m, code, st, JUMP);
    hide Step;
    hide ValidDest;
    assert st.stack[..|s|] == s;
  }

  lemma JumpIfStep(m: Machine, code: seq<byte>, st: State, s: seq<Word>, c: Word, d: Word)
    requires OpAt(code, st.pc) == JUMPI && st.stack == s + [c, d] && |s| + 1 < STACK_LIMIT && st.gas >= 10
    ensures Step(m, code, st) == var rest := State(st.pc + 1, st.gas - 10, s, st.world);
                                 if c != 0 then JumpTo(code, d, rest) else Next(rest)
  {
    StepCore(m, code, st, JUMPI);
    hide Step;
    hide ValidDest;
    assert st.stack[..|s|] == s;
  }

  lemma OneHolds(code: seq<byte>, at: nat, b: byte)
    requires Holds(code, at, Assemble([Op(b)]))
    ensures OpAt(code, at) == b && |Assemble([Op(b)])| == 1
  {
    AssembleOne(Op(b));
    OpHolds(code, at, b);
  }

  /** The first instruction of a block and the rest of it. */
  lemma FirstHolds(code: seq<byte>, at: nat, i: Instr, rest: seq<Instr>)
    requires Holds(code, at, Assemble([i] + rest))
    ensures Holds(code, at, InstrBytes(i)) && Holds(code, at + |InstrBytes(i)|, Assemble(rest))
    ensures |Assemble([i] + rest)| == |InstrBytes(i)| + |Assemble(rest)|
  {
    hide *;
    AssemblePrepend(i, rest);
    HoldsSplit(code, at, InstrBytes(i), Assemble(rest));
  }

  /** The last instruction of a run. */
  lemma RunLast(m: Machine, code: seq<byte>, st: State)
    ensures Run(m, code, st, 1) == Step(m, code, st)
  {
    hide Step;
    if Step(m, code, st).Next? {
      RunOne(m, code, st, 1);
      RunNone(m, code, Step(m, code, st).st);
    }
  }

  // ---------------------------------------------------------------- jumps to labels

  /** An emitted jump takes two instructions and 11 gas, leaves the stack as it was, and
      lands exactly if its destination is valid. */
  lemma JumpRuns(m: Machine, code: seq<byte>, st: State, d: Word)
    requires Holds(code, st.pc, Assemble(JumpInstrs(d))) && |st.stack| < STACK_LIMIT && st.gas >= 11
    ensures Run(m, code, st, 2) == if ValidDest(code, d) then Next(State(d, st.gas - 11, st.stack, st.world))
                                   else Halted(BadJump)
  {
    hide Step;
    hide Run;
    hide Assemble;
    hide InstrBytes;
    hide Holds;
    hide OpAt;
    hide ValidDest;
    assert JumpInstrs(d) == [Push(d)] + [Op(JUMP)];
    FirstHolds(code, st.pc, Push(d), [Op(JUMP)]);
    StepPush(m, code, st, d);
    var t := Step(m, code, st).st;
    OneHolds(code, t.pc, JUMP);
    JumpStep(m, code, t, st.stack, d);
    RunOne(m, code, st, 2);
    RunLast(m, code, t);
  }

  /** The conditional one: not taken, it goes on behind itself. */
  lemma JumpIfRuns(m: Machine, code: seq<byte>, st: State, d: Word, c: Word)
    requires Holds(code, st.pc, Assemble(JumpIfInstrs(d, c))) && |st.stack| + 1 < STACK_LIMIT && st.gas >= 16
    ensures Run(m, code, st, 3) ==
              if c == 0 then Next(State(st.pc + |Assemble(JumpIfInstrs(d, c))|, st.gas - 16, st.stack, st.world))
              else if ValidDest(code, d) then Next(State(d, st.gas - 16, st.stack, st.world))
              else Halted(BadJump)
  {
    hide Step;
    hide Run;
    hide Assemble;
    hide InstrBytes;
    hide Holds;
    hide OpAt;
    hide ValidDest;
    var rest := [Push(d)] + [Op(JUMPI)];
    assert JumpIfInstrs(d, c) == [Push(c)] + rest;
    FirstHolds(code, st.pc, Push(c), rest);
    StepPush(m, code, st, c);
    var t := Step(m, code, st).st;
    FirstHolds(code, t.pc, Push(d), [Op(JUMPI)]);
    StepPush(m, code, t, d);
    var u := Step(m, code, t).st;
    assert u.stack == st.stack + [c, d];
    OneHolds(code, u.pc, JUMPI);
    JumpIfStep(m, code, u, st.stack, c, d);
    RunOne(m, code, st, 3);
    RunOne(m, code, t, 2);
    RunLast(m, code, u);
  }

  /** In a program without raw PUSH bytes every jump to a cached label lands on it, however
      much has been emitted since. */
  lemma LabelJumpLands(m: Machine, asm: seq<Instr>, st: State, l: Word, c: Word)
    requires Clean(asm) && GoodLabel(Assemble(asm), asm, l) && st.gas >= 16 && |st.stack| + 1 < STACK_LIMIT
    ensures Holds(Assemble(asm), st.pc, Assemble(JumpInstrs(l)))
            ==> Run(m, Assemble(asm), st, 2) == Next(State(l, st.gas - 11, st.stack, st.world))
    ensures Holds(Assemble(asm), st.pc, Assemble(JumpIfInstrs(l, c))) && c != 0
            ==> Run(m, Assemble(asm), st, 3) == Next(State(l, st.gas - 16, st.stack, st.world))
  {
    hide Run;
    hide Assemble;
    hide Holds;
    hide Clean;
    hide ValidDest;
    var code := Assemble(asm);
    if Holds(code, st.pc, Assemble(JumpInstrs(l))) {
      JumpRuns(m, code, st, l);
    }
    if Holds(code, st.pc, Assemble(JumpIfInstrs(l, c))) {
      JumpIfRuns(m, code, st, l, c);
    }
  }

  // ---------------------------------------------------------------- jumps into push data

  /** Decoding passes over the byte behind a PUSH1 only if the bytes before it say so. */
  lemma {:induction false} BoundaryBehindPush(before: seq<byte>, rest: seq<byte>, from: nat)
    requires rest != [] && rest[0] == PUSH1
    ensures Boundary(before + rest, from, |before| + 1) == Boundary(before, from, |before| + 1)
    decreases if from <= |before| then |before| + 1 - from else 0
  {
    var code := before + rest;
    if from < |before| {
      assert code[from] == before[from];
      BoundaryBehindPush(before, rest, from + 1 + Immediate(before[from]));
    } else if from == |before| {
      assert code[from] == rest[0];
    }
  }

  /** The byte that an invalid jump aims at is a JUMPDEST byte, and it is a valid
      destination exactly if a raw PUSH before the snippet lacks one immediate byte and
      swallows the snippet's own PUSH1. */
  lemma InvalidTargetExactly(before: seq<byte>, after: seq<byte>)
    ensures var code := before + Assemble(InvalidJumpInstrs(|before|)) + after;
            && OpAt(code, |before| + 1) == JUMPDEST
            && (ValidDest(code, |before| + 1) <==> Boundary(before, 0, |before| + 1))
  {
    hide Assemble;
    hide InstrBytes;
    hide Boundary;
    SnippetStarts(|before|);
    hide InvalidJumpInstrs;
    var snippet := Assemble(InvalidJumpInstrs(|before|));
    var code := before + snippet + after;
    assert code == before + (snippet + after);
    assert code[|before| + 1] == (snippet + after)[1];
    BoundaryBehindPush(before, snippet + after, 0);
    assert code[|before| + 1] == JUMPDEST;
  }

  lemma SnippetStarts(at: nat)
    ensures var s := Assemble(InvalidJumpInstrs(at)); |s| >= 2 && s[0] == PUSH1 && s[1] == JUMPDEST
  {
    hide Assemble;
    hide InstrBytes;
    hide Wrap;
    var tail := [Op(POP), Push(Wrap(at + 1)), Op(JUMP)];
    assert InvalidJumpInstrs(at) == [Push(0x5b)] + tail;
    AssemblePrepend(Push(0x5b), tail);
    ShortBytes(0x5b);
  }

  lemma ShortBytes(v: Word)
    requires v < 256
    ensures InstrBytes(Push(v)) == [PUSH1, v]
  {
    assert PushLen(v) == 1;
    assert ToBigEndian(v, 1) == ToBigEndian(v / 256, 0) + [v];
  }

  /** Decoding passes at most one of two neighbouring positions behind the code. */
  lemma {:induction false} NotOneFurther(before: seq<byte>, from: nat)
    requires Boundary(before, from, |before|)
    ensures !Boundary(before, from, |before| + 1)
    decreases if from <= |before| then |before| - from else 0
  {
    if from >= |before| {
    } else {
      NotOneFurther(before, from + 1 + Immediate(before[from]));
    }
  }

  /** In a program without raw PUSH bytes before it, an invalid jump entered with 16 gas
      and room for one item always ends the frame as a bad jump. */
  lemma InvalidJumpFails(m: Machine, asm: seq<Instr>, after: seq<byte>, st: State)
    requires Clean(asm) && st.pc == |Assemble(asm)| && st.pc + 1 < WORD
    requires st.gas >= 16 && |st.stack| < STACK_LIMIT
    ensures var code := Assemble(asm) + Assemble(InvalidJumpInstrs(st.pc)) + after;
            Run(m, code, st, 4) == Halted(BadJump) && !ValidDest(code, st.pc + 1)
  {
    hide Step;
    hide Run;
    hide Boundary;
    hide Clean;
    hide Assemble;
    hide InstrBytes;
    hide Holds;
    hide OpAt;
    hide ValidDest;
    var before := Assemble(asm);
    var at := |before|;
    var code := before + Assemble(InvalidJumpInstrs(at)) + after;
    CleanIsWhole(asm);
    NotOneFurther(before, 0);
    InvalidTargetExactly(before, after);
    SnippetHolds(before, Assemble(InvalidJumpInstrs(at)), after);
    ShortPush(0x5b);
    var jump := JumpInstrs(at + 1);
    assert InvalidJumpInstrs(at) == [Push(0x5b)] + ([Op(POP)] + jump);
    FirstHolds(code, at, Push(0x5b), [Op(POP)] + jump);
    FirstHolds(code, at + 2, Op(POP), jump);
    OpHolds(code, at + 2, POP);
    StepPush(m, code, st, 0x5b);
    var t := Step(m, code, st).st;
    PopStep(m, code, t, st.stack, 0x5b);
    var u := Step(m, code, t).st;
    JumpRuns(m, code, u, at + 1);
    RunOne(m, code, st, 4);
    RunOne(m, code, t, 3);
  }

  lemma SnippetHolds(before: seq<byte>, snippet: seq<byte>, after: seq<byte>)
    ensures Holds(before + snippet + after, |before|, snippet)
  {
  }

  /** With a raw PUSH1 before it the target of an invalid jump is valid. */
  lemma RawPushMakesItValid(after: seq<byte>)
    ensures ValidDest([PUSH1] + Assemble(InvalidJumpInstrs(1)) + after, 2)
  {
    InvalidTargetExactly([PUSH1], after);
    hide Assemble;
    hide InvalidJumpInstrs;
    hide ValidDest;
    assert Boundary([PUSH1], 2, 2);
  }

  // ---------------------------------------------------------------- filling the stack

  function Zeros(n: nat): (s: seq<Word>)
    ensures |s| == n
  {
    seq(n, _ => 0)
  }

  lemma ZerosOneMore(s: seq<Word>, n: nat)
    ensures s + Zeros(n) + [0] == s + Zeros(n + 1)
  {
  }

  lemma DupZero(m: Machine, code: seq<byte>, st: State, s: seq<Word>, n: nat)
    requires OpAt(code, st.pc) == DUP1 && st.stack == s + Zeros(n + 1) && |st.stack| <= STACK_LIMIT && st.gas >= 3
    ensures Step(m, code, st) ==
              if |st.stack| >= STACK_LIMIT then Halted(Overflow)
              else Next(st.(pc := st.pc + 1, gas := st.gas - 3, stack := s + Zeros(n + 2)))
  {
    if |st.stack| < STACK_LIMIT {
      StepCore(m, code, st, DUP1);
      ZerosOneMore(s, n + 1);
    }
    hide Execute;
  }

  lemma {:induction false} DupsRun(m: Machine, code: seq<byte>, st: State, s: seq<Word>, n: nat, depth: nat)
    requires Holds(code, st.pc, Assemble(Repeat(Op(DUP1), depth))) && st.gas >= 3 * depth
    requires st.stack == s + Zeros(n + 1) && |st.stack| <= STACK_LIMIT
    ensures RunUntil(m, code, st, st.pc + |Assemble(Repeat(Op(DUP1), depth))|) ==
              if |st.stack| + depth > STACK_LIMIT then Halted(Overflow)
              else Next(State(st.pc + depth, st.gas - 3 * depth, s + Zeros(n + 1 + depth), st.world))
    ensures |Assemble(Repeat(Op(DUP1), depth))| == depth
    decreases depth
  {
    hide Step;
    hide Assemble;
    hide InstrBytes;
    hide Holds;
    hide OpAt;
    hide Zeros;
    if depth == 0 {
      AssembleNone();
    } else {
      var rest := Repeat(Op(DUP1), depth - 1);
      assert Repeat(Op(DUP1), depth) == [Op(DUP1)] + rest;
      hide Repeat;
      FirstHolds(code, st.pc, Op(DUP1), rest);
      OpHolds(code, st.pc, DUP1);
      DupZero(m, code, st, s, n);
      RunUntilStep(m, code, st, st.pc + |Assemble(Repeat(Op(DUP1), depth))|);
      hide RunUntil;
      var r := Step(m, code, st);
      if r.Next? {
        DupsRun(m, code, r.st, s, n + 1, depth - 1);
      } else {
        LengthOfOps(DUP1, depth - 1);
      }
    }
  }

  lemma {:induction false} LengthOfOps(b: byte, n: nat)
    ensures |Assemble(Repeat(Op(b), n))| == n
    decreases n
  {
    if n == 0 {
    } else {
      assert Repeat(Op(b), n)[..n - 1] == Repeat(Op(b), n - 1);
      LengthOfOps(b, n - 1);
    }
  }

  lemma PushZero(m: Machine, code: seq<byte>, st: State)
    requires OpAt(code, st.pc) == PUSH0 && |st.stack| < STACK_LIMIT && st.gas >= 2
    ensures Step(m, code, st) == Next(st.(pc := st.pc + 1, gas := st.gas - 2, stack := st.stack + [0]))
  {
    StepCore(m, code, st, PUSH0);
    hide Step;
    assert Pushed(code, st.pc + 1, 0) == 0;
  }

  /** The overflowing half of a stack fill dies of a stack overflow exactly if the items
      it finds and the items it adds are more than the limit; otherwise it ends alive. */
  lemma FillOverflowsExactly(m: Machine, code: seq<byte>, st: State, depth: nat)
    requires Holds(code, st.pc, Assemble(StackFillInstrs(depth, true))) && |st.stack| < STACK_LIMIT
    requires st.gas >= 2 + 3 * depth
    ensures RunUntil(m, code, st, st.pc + 1 + depth) ==
              if |st.stack| + 1 + depth > STACK_LIMIT then Halted(Overflow)
              else Next(State(st.pc + 1 + depth, st.gas - 2 - 3 * depth, st.stack + Zeros(1 + depth), st.world))
  {
    hide Step;
    hide Assemble;
    hide InstrBytes;
    hide Holds;
    hide OpAt;
    var dups := Repeat(Op(DUP1), depth);
    assert StackFillInstrs(depth, true) == [Op(PUSH0)] + dups;
    hide Repeat;
    FirstHolds(code, st.pc, Op(PUSH0), dups);
    OpHolds(code, st.pc, PUSH0);
    PushZero(m, code, st);
    LengthOfOps(DUP1, depth);
    RunUntilStep(m, code, st, st.pc + 1 + depth);
    var t := Step(m, code, st).st;
    assert t.stack == st.stack + Zeros(1);
    hide RunUntil;
    DupsRun(m, code, t, st.stack, 0, depth);
  }

  lemma PopZero(m: Machine, code: seq<byte>, st: State, s: seq<Word>, n: nat)
    requires OpAt(code, st.pc) == POP && st.stack == s + Zeros(n + 1) && |st.stack| <= STACK_LIMIT && st.gas >= 2
    ensures Step(m, code, st) == Next(st.(pc := st.pc + 1, gas := st.gas - 2, stack := s + Zeros(n)))
  {
    ZerosOneMore(s, n);
    PopStep(m, code, st, s + Zeros(n), 0);
  }

  lemma {:induction false} PopsRun(m: Machine, code: seq<byte>, st: State, s: seq<Word>, n: nat, depth: nat)
    requires Holds(code, st.pc, Assemble(Repeat(Op(POP), depth))) && st.gas >= 2 * depth
    requires st.stack == s + Zeros(n + depth) && |st.stack| <= STACK_LIMIT
    ensures RunUntil(m, code, st, st.pc + depth) ==
              Next(State(st.pc + depth, st.gas - 2 * depth, s + Zeros(n), st.world))
    decreases depth
  {
    hide Step;
    hide Assemble;
    hide InstrBytes;
    hide Holds;
    hide OpAt;
    if depth == 0 {
    } else {
      var rest := Repeat(Op(POP), depth - 1);
      assert Repeat(Op(POP), depth) == [Op(POP)] + rest;
      hide Repeat;
      hide Zeros;
      FirstHolds(code, st.pc, Op(POP), rest);
      OpHolds(code, st.pc, POP);
      PopZero(m, code, st, s, n + depth - 1);
      RunUntilStep(m, code, st, st.pc + depth);
      hide RunUntil;
      PopsRun(m, code, Step(m, code, st).st, s, n, depth - 1);
    }
  }

  /** The other half drains what it has filled: from any stack with room enough it leaves
      exactly the one zero it started from, for 2 + 5 * depth gas. */
  lemma FillDrains(m: Machine, code: seq<byte>, st: State, depth: nat)
    requires Holds(code, st.pc, Assemble(StackFillInstrs(depth, false))) && |st.stack| + 1 + depth <= STACK_LIMIT
    requires st.gas >= 2 + 5 * depth
    ensures RunUntil(m, code, st, st.pc + 1 + 2 * depth) ==
              Next(State(st.pc + 1 + 2 * depth, st.gas - 2 - 5 * depth, st.stack + [0], st.world))
  {
    hide Assemble;
    hide Holds;
    hide RunUntil;
    hide Fits;
    hide AllStraight;
    var up, down := StackFillInstrs(depth, true), Repeat(Op(POP), depth);
    assert StackFillInstrs(depth, false) == up + down;
    FillFits(depth, |st.stack|);
    hide StackFillInstrs;
    AssembleJoin(up, down);
    HoldsSplit(code, st.pc, Assemble(up), Assemble(down));
    LengthOfFill(depth);
    FillOverflowsExactly(m, code, st, depth);
    RunUntilJoin(m, code, st, up, st.pc + 1 + 2 * depth);
    var t := RunUntil(m, code, st, st.pc + 1 + depth).st;
    assert Zeros(1) == [0];
    PopsRun(m, code, t, st.stack, 1, depth);
  }

  lemma LengthOfFill(depth: nat)
    ensures |Assemble(StackFillInstrs(depth, true))| == 1 + depth
  {
    hide Assemble;
    var ups := Repeat(Op(DUP1), depth);
    assert StackFillInstrs(depth, true) == [Op(PUSH0)] + ups;
    AssemblePrepend(Op(PUSH0), ups);
    BareOp(PUSH0);
    LengthOfOps(DUP1, depth);
  }

  lemma FillFits(depth: nat, h: nat)
    ensures AllStraight(StackFillInstrs(depth, true)) && Fits(StackFillInstrs(depth, true), h)
  {
    if depth > 0 {
      FillTracks(depth, true, h);
    } else {
      assert StackFillInstrs(0, true) == [Op(PUSH0)];
      assert [Op(PUSH0)][1..] == [];
    }
  }

  /** A fill that is not meant to overflow fits, even on top of two items, whatever the
      budget. */
  lemma FillFitsStack(data: seq<byte>, total: nat, budget: Option<int>)
    requires |data| > 0 && Drawn(data, total) >= 32
    ensures 2 + 1 + FillDepth(data, total, budget) <= STACK_LIMIT
  {
    hide Drawn;
  }

  /** An overflow fill overflows even an empty stack, and with that every one, exactly if the
      budget was at least 2056 bytes: below that its cut depth fits. */
  lemma OverflowNeedsBudget(data: seq<byte>, total: nat, left: int)
    requires |data| > 0 && Drawn(data, total) < 32
    ensures FillDepth(data, total, Some(left)) + 1 > STACK_LIMIT <==> left >= 2056
  {
    hide Drawn;
  }
}
