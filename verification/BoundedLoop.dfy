/** The counter-driven loop of the generator, run on the machine. */
module BoundedLoop {
  import opened Bytes
  import opened Evm
  import opened Assembler

  /** The emitted loop: k is the initial counter, head the position of its JUMPDEST. */
  function LoopInstrs(k: Word, head: Word): seq<Instr>
  {
    [Push(k), Op(JUMPDEST), Op(GAS), Op(POP), Push(1), Op(SWAP1), Op(SUB), Op(DUP1), Push(head), Op(JUMPI), Op(POP)]
  }

  function LoopBytes(k: Word, head: Word): seq<byte>
  {
    InstrBytes(Push(k)) + ([JUMPDEST, GAS, POP] + (InstrBytes(Push(1)) + ([SWAP1, SUB, DUP1]
    + (InstrBytes(Push(head)) + [JUMPI, POP]))))
  }

  lemma AssembleOps(a: byte, b: byte, rest: seq<Instr>)
    ensures Assemble([Op(a), Op(b)] + rest) == [a, b] + Assemble(rest)
  {
    AssembleFirst([Op(a), Op(b)] + rest);
    assert ([Op(a), Op(b)] + rest)[1..] == [Op(b)] + rest;
    AssembleFirst([Op(b)] + rest);
    assert ([Op(b)] + rest)[1..] == rest;
  }

  lemma AssemblePrepend(i: Instr, rest: seq<Instr>)
    ensures Assemble([i] + rest) == InstrBytes(i) + Assemble(rest)
  {
    AssembleFirst([i] + rest);
    assert ([i] + rest)[1..] == rest;
  }

  lemma LoopAssembles(k: Word, head: Word)
    ensures Assemble(LoopInstrs(k, head)) == LoopBytes(k, head)
  {
    hide InstrBytes;
    hide Assemble;
    var tail := [Op(JUMPI), Op(POP)] + [];
    var body2 := [Op(SWAP1), Op(SUB)] + ([Op(DUP1)] + ([Push(head)] + tail));
    var body1 := [Op(JUMPDEST), Op(GAS)] + ([Op(POP)] + ([Push(1)] + body2));
    assert LoopInstrs(k, head) == [Push(k)] + body1;
    AssemblePrepend(Push(k), body1);
    AssembleOps(JUMPDEST, GAS, [Op(POP)] + ([Push(1)] + body2));
    AssemblePrepend(Op(POP), [Push(1)] + body2);
    AssemblePrepend(Push(1), body2);
    AssembleOps(SWAP1, SUB, [Op(DUP1)] + ([Push(head)] + tail));
    AssemblePrepend(Op(DUP1), [Push(head)] + tail);
    AssemblePrepend(Push(head), tail);
    AssembleOps(JUMPI, POP, []);
    BareOp(POP);
    BareOp(DUP1);
    AssembleNone();
    assert Assemble(body1) == [JUMPDEST, GAS] + ([POP] + (InstrBytes(Push(1)) + Assemble(body2)));
    assert Assemble(body1) == [JUMPDEST, GAS, POP] + (InstrBytes(Push(1)) + Assemble(body2));
    assert Assemble(body2) == [SWAP1, SUB, DUP1] + (InstrBytes(Push(head)) + [JUMPI, POP]);
  }

  lemma BareOp(b: byte)
    ensures InstrBytes(Op(b)) == [b]
  {
  }

  lemma AssembleNone()
    ensures Assemble([]) == []
  {
  }

  /** A loop stands at `at` in the code, and `at` is an instruction boundary. */
  predicate Site(code: seq<byte>, at: nat, k: Word)
  {
    var head := at + |InstrBytes(Push(k))|;
    Boundary(code, 0, at) && head < WORD && Holds(code, at, LoopBytes(k, head))
  }

  /** A loop stays runnable when code is appended. */
  lemma SiteStays(code: seq<byte>, more: seq<byte>, at: nat, k: Word)
    requires Site(code, at, k)
    ensures Site(code + more, at, k)
  {
    hide LoopBytes;
    hide InstrBytes;
    var s := LoopBytes(k, at + |InstrBytes(Push(k))|);
    BoundaryOfPrefix(code, code + more, 0, at);
    assert (code + more)[at..at + |s|] == code[at..at + |s|];
  }

  function Head(at: nat, k: Word): nat
  {
    at + |InstrBytes(Push(k))|
  }

  /** Position of the JUMPI. */
  function Branch(at: nat, k: Word): nat
    requires Head(at, k) < WORD
  {
    Head(at, k) + 8 + |InstrBytes(Push(Head(at, k)))|
  }

  /** Which bytes stand where. */
  lemma Layout(code: seq<byte>, at: nat, k: Word)
    requires Site(code, at, k)
    ensures var h := Head(at, k);
            && Holds(code, at, InstrBytes(Push(k)))
            && OpAt(code, h) == JUMPDEST && OpAt(code, h + 1) == GAS && OpAt(code, h + 2) == POP
            && Holds(code, h + 3, InstrBytes(Push(1))) && |InstrBytes(Push(1))| == 2
            && OpAt(code, h + 5) == SWAP1 && OpAt(code, h + 6) == SUB && OpAt(code, h + 7) == DUP1
            && Holds(code, h + 8, InstrBytes(Push(h)))
            && OpAt(code, Branch(at, k)) == JUMPI && OpAt(code, Branch(at, k) + 1) == POP
  {
    var h := Head(at, k);
    OnePushed();
    hide InstrBytes;
    hide Holds;
    hide OpAt;
    hide Boundary;
    var t4 := [JUMPI, POP];
    var t3 := InstrBytes(Push(h)) + t4;
    var t2 := [SWAP1, SUB, DUP1] + t3;
    var t1 := InstrBytes(Push(1)) + t2;
    HoldsSplit(code, at, InstrBytes(Push(k)), [JUMPDEST, GAS, POP] + t1);
    HoldsSplit(code, h, [JUMPDEST, GAS, POP], t1);
    HoldsSplit(code, h + 3, InstrBytes(Push(1)), t2);
    HoldsSplit(code, h + 5, [SWAP1, SUB, DUP1], t3);
    HoldsSplit(code, h + 8, InstrBytes(Push(h)), t4);
    Three(code, h, JUMPDEST, GAS, POP);
    Three(code, h + 5, SWAP1, SUB, DUP1);
    Two(code, Branch(at, k), JUMPI, POP);
  }

  lemma OnePushed()
    ensures |InstrBytes(Push(1))| == 2
  {
    assert PushLen(1) == 1;
  }

  lemma Two(code: seq<byte>, p: nat, a: byte, b: byte)
    requires Holds(code, p, [a, b])
    ensures OpAt(code, p) == a && OpAt(code, p + 1) == b
  {
    var s := code[p..p + 2];
    assert code[p] == s[0] && code[p + 1] == s[1];
  }

  lemma Three(code: seq<byte>, p: nat, a: byte, b: byte, c: byte)
    requires Holds(code, p, [a, b, c])
    ensures OpAt(code, p) == a && OpAt(code, p + 1) == b && OpAt(code, p + 2) == c
  {
    var s := code[p..p + 3];
    assert code[p] == s[0] && code[p + 1] == s[1] && code[p + 2] == s[2];
  }

  lemma SiteStart(code: seq<byte>, at: nat, k: Word)
    requires Site(code, at, k)
    ensures Boundary(code, 0, at) && at < |code|
  {
  }

  /** An emitted push ends on an instruction boundary if it starts on one. */
  lemma BoundaryAfter(code: seq<byte>, at: nat, v: Word)
    requires Holds(code, at, InstrBytes(Push(v))) && Boundary(code, 0, at)
    ensures Boundary(code, 0, at + |InstrBytes(Push(v))|)
  {
    hide *;
    PushOpcode(code, at, v);
    PushImmediate(code, at, v);
    NextBoundary(code, at);
    BoundaryJoin(code, 0, at, at + |InstrBytes(Push(v))|);
  }

  /** One step of the decoding. */
  lemma NextBoundary(code: seq<byte>, at: nat)
    requires at < |code|
    ensures Boundary(code, at, at + 1 + Immediate(code[at]))
  {
    var next := at + 1 + Immediate(code[at]);
    assert Boundary(code, next, next);
  }

  lemma PushImmediate(code: seq<byte>, at: nat, v: Word)
    requires Holds(code, at, InstrBytes(Push(v)))
    ensures at < |code| && |InstrBytes(Push(v))| == 1 + Immediate(code[at])
  {
    PushOpcode(code, at, v);
    hide InstrBytes;
    hide PushLen;
    hide Holds;
  }

  lemma MakeValid(code: seq<byte>, d: nat)
    requires OpAt(code, d) == JUMPDEST && Boundary(code, 0, d)
    ensures ValidDest(code, d)
  {
    hide Boundary;
  }

  /** The loop head is a valid destination. */
  lemma HeadIsValid(code: seq<byte>, at: nat, k: Word)
    requires Site(code, at, k)
    ensures ValidDest(code, Head(at, k))
  {
    hide *;
    SiteStart(code, at, k);
    Layout(code, at, k);
    HeadAt(at, k);
    BoundaryAfter(code, at, k);
    MakeValid(code, Head(at, k));
  }

  lemma RunOne(m: Machine, code: seq<byte>, st: State, k: nat)
    requires k > 0 && Step(m, code, st).Next?
    ensures Run(m, code, st, k) == Run(m, code, Step(m, code, st).st, k - 1)
  {
    hide Step;
  }

  lemma JumpdestStep(m: Machine, code: seq<byte>, st: State)
    requires OpAt(code, st.pc) == JUMPDEST && |st.stack| <= STACK_LIMIT && st.gas >= 1
    ensures Step(m, code, st) == Next(st.(pc := st.pc + 1, gas := st.gas - 1))
  {
    StepCore(m, code, st, JUMPDEST);
    hide Step;
  }

  lemma GasStep(m: Machine, code: seq<byte>, st: State)
    requires OpAt(code, st.pc) == GAS && |st.stack| < STACK_LIMIT && st.gas >= 2
    ensures Step(m, code, st) == Next(st.(pc := st.pc + 1, gas := st.gas - 2, stack := st.stack + [Wrap(st.gas - 2)]))
  {
    StepCore(m, code, st, GAS);
    hide Step;
  }

  /** From the head to the pushed 1: JUMPDEST, GAS, POP, PUSH. */
  lemma FirstHalf(m: Machine, code: seq<byte>, at: nat, k: Word, s: seq<Word>, c: Word, gas: nat, w: World)
    requires Site(code, at, k) && |s| <= 1021 && gas >= 30
    ensures Run(m, code, State(Head(at, k), gas, s + [c], w), 4)
            == Next(State(Head(at, k) + 5, gas - 8, s + [c, 1], w))
  {
    hide Step;
    hide Run;
    hide Site;
    hide LoopBytes;
    hide InstrBytes;
    hide Holds;
    hide OpAt;
    hide ValidDest;
    Layout(code, at, k);
    var h := Head(at, k);
    var st0 := State(h, gas, s + [c], w);
    JumpdestStep(m, code, st0);
    var st1 := State(h + 1, gas - 1, s + [c], w);
    GasStep(m, code, st1);
    var st2 := State(h + 2, gas - 3, s + [c] + [Wrap(gas - 3)], w);
    PopStep(m, code, st2, s + [c], Wrap(gas - 3));
    var st3 := State(h + 3, gas - 5, s + [c], w);
    StepPush(m, code, st3, 1);
    assert s + [c] + [1] == s + [c, 1];
    RunOne(m, code, st0, 4);
    RunOne(m, code, st1, 3);
    RunOne(m, code, st2, 2);
    RunOne(m, code, st3, 1);
    RunNone(m, code, State(h + 5, gas - 8, s + [c, 1], w));
  }

  lemma RunNone(m: Machine, code: seq<byte>, st: State)
    ensures Run(m, code, st, 0) == Next(st)
  {
  }

  lemma BranchAt(at: nat, k: Word)
    requires Head(at, k) < WORD
    ensures Branch(at, k) == Head(at, k) + 8 + |InstrBytes(Push(Head(at, k)))|
  {
  }

  lemma SiteHead(code: seq<byte>, at: nat, k: Word)
    requires Site(code, at, k)
    ensures Head(at, k) < WORD
  {
  }

  /** From there to the branch: SWAP1, SUB, DUP1, PUSH, JUMPI. */
  lemma SecondHalf(m: Machine, code: seq<byte>, at: nat, k: Word, s: seq<Word>, c: Word, gas: nat, w: World)
    requires Site(code, at, k) && |s| <= 1021 && gas >= 22 && c >= 1
    ensures Run(m, code, State(Head(at, k) + 5, gas, s + [c, 1], w), 5)
            == Next(State(if c > 1 then Head(at, k) else Branch(at, k) + 1, gas - 22, s + [c - 1], w))
  {
    hide Step;
    hide Run;
    hide Site;
    hide LoopBytes;
    hide InstrBytes;
    hide Holds;
    hide OpAt;
    hide ValidDest;
    SiteHead(code, at, k);
    Layout(code, at, k);
    HeadIsValid(code, at, k);
    BranchAt(at, k);
    var h := Head(at, k);
    var st0 := State(h + 5, gas, s + [c, 1], w);
    SwapStep(m, code, st0, s, c, 1);
    var st1 := State(h + 6, gas - 3, s + [1, c], w);
    SubStep(m, code, st1, s, 1, c);
    var st2 := State(h + 7, gas - 6, s + [c - 1], w);
    DupStep(m, code, st2, s, c - 1);
    var st3 := State(h + 8, gas - 9, s + [c - 1, c - 1], w);
    StepPush(m, code, st3, h);
    assert s + [c - 1, c - 1] + [h] == s + [c - 1, c - 1, h];
    var st4 := State(Branch(at, k), gas - 12, s + [c - 1, c - 1, h], w);
    BranchStep(m, code, st4, s, c - 1, h);
    RunOne(m, code, st0, 5);
    RunOne(m, code, st1, 4);
    RunOne(m, code, st2, 3);
    RunOne(m, code, st3, 2);
    RunOne(m, code, st4, 1);
    RunNone(m, code, Step(m, code, st4).st);
  }

  lemma SwapStep(m: Machine, code: seq<byte>, st: State, s: seq<Word>, x: Word, y: Word)
    requires OpAt(code, st.pc) == SWAP1 && st.stack == s + [x, y] && |s| <= 1021 && st.gas >= 3
    ensures Step(m, code, st) == Next(st.(pc := st.pc + 1, gas := st.gas - 3, stack := s + [y, x]))
  {
    StepCore(m, code, st, SWAP1);
    hide Step;
    assert st.stack[|s| := y][|s| + 1 := x] == s + [y, x];
  }

  lemma SubStep(m: Machine, code: seq<byte>, st: State, s: seq<Word>, x: Word, y: Word)
    requires OpAt(code, st.pc) == SUB && st.stack == s + [x, y] && |s| <= 1021 && st.gas >= 3 && x <= y
    ensures Step(m, code, st) == Next(st.(pc := st.pc + 1, gas := st.gas - 3, stack := s + [y - x]))
  {
    StepCore(m, code, st, SUB);
    hide Step;
    assert st.stack[..|s|] == s;
    assert Arith(SUB, y, x) == y - x;
  }

  lemma DupStep(m: Machine, code: seq<byte>, st: State, s: seq<Word>, x: Word)
    requires OpAt(code, st.pc) == DUP1 && st.stack == s + [x] && |s| <= 1021 && st.gas >= 3
    ensures Step(m, code, st) == Next(st.(pc := st.pc + 1, gas := st.gas - 3, stack := s + [x, x]))
  {
    StepCore(m, code, st, DUP1);
    hide Step;
    assert s + [x] + [x] == s + [x, x];
  }

  lemma BranchStep(m: Machine, code: seq<byte>, st: State, s: seq<Word>, x: Word, h: Word)
    requires OpAt(code, st.pc) == JUMPI && st.stack == s + [x, x, h] && |s| <= 1021 && st.gas >= 10
    requires ValidDest(code, h)
    ensures Step(m, code, st) == Next(State(if x != 0 then h else st.pc + 1, st.gas - 10, s + [x], st.world))
  {
    StepCore(m, code, st, JUMPI);
    hide Step;
    hide ValidDest;
    assert st.stack[..|s| + 1] == s + [x];
  }

  /** One iteration: nine instructions, 30 gas, the counter one less. */
  lemma Iteration(m: Machine, code: seq<byte>, at: nat, k: Word, s: seq<Word>, c: Word, gas: nat, w: World)
    requires Site(code, at, k) && |s| <= 1021 && gas >= 30 && c >= 1
    ensures Run(m, code, State(Head(at, k), gas, s + [c], w), 9)
            == Next(State(if c > 1 then Head(at, k) else Branch(at, k) + 1, gas - 30, s + [c - 1], w))
  {
    hide Site;
    hide Step;
    hide Run;
    FirstHalf(m, code, at, k, s, c, gas, w);
    SecondHalf(m, code, at, k, s, c, gas - 8, w);
    RunCompose(m, code, State(Head(at, k), gas, s + [c], w), 4, 5);
  }

  /** All iterations from counter c on. */
  lemma {:induction false} Iterations(m: Machine, code: seq<byte>, at: nat, k: Word, s: seq<Word>, c: Word, gas: nat, w: World)
    requires Site(code, at, k) && |s| <= 1021 && gas >= 30 * c && c >= 1
    ensures Run(m, code, State(Head(at, k), gas, s + [c], w), 9 * c)
            == Next(State(Branch(at, k) + 1, gas - 30 * c, s + [0], w))
    decreases c
  {
    hide Site;
    hide Step;
    hide Run;
    Iteration(m, code, at, k, s, c, gas, w);
    if c == 1 {
    } else {
      Iterations(m, code, at, k, s, c - 1, gas - 30, w);
      RunCompose(m, code, State(Head(at, k), gas, s + [c], w), 9, 9 * (c - 1));
    }
  }

  lemma PopStep(m: Machine, code: seq<byte>, st: State, s: seq<Word>, x: Word)
    requires OpAt(code, st.pc) == POP && st.stack == s + [x] && |s| < STACK_LIMIT && st.gas >= 2
    ensures Step(m, code, st) == Next(st.(pc := st.pc + 1, gas := st.gas - 2, stack := s))
  {
    StepCore(m, code, st, POP);
    hide Step;
    assert st.stack[..|s|] == s;
  }

  /** The loop entered at its first byte runs exactly k times: after 9k + 2 instructions
      and 30k + 5 gas it stands at the byte after the loop with the stack it found. */
  lemma LoopTerminates(m: Machine, code: seq<byte>, at: nat, k: Word, s: seq<Word>, gas: nat, w: World)
    requires Site(code, at, k) && k >= 1 && |s| <= 1021 && gas >= 30 * k + 5
    ensures Run(m, code, State(at, gas, s, w), 9 * k + 2)
            == Next(State(at + |LoopBytes(k, Head(at, k))|, gas - (30 * k + 5), s, w))
  {
    hide Step;
    hide Run;
    hide Site;
    hide LoopBytes;
    hide InstrBytes;
    hide Holds;
    hide OpAt;
    hide ValidDest;
    SiteHead(code, at, k);
    Layout(code, at, k);
    LoopLength(at, k);
    HeadAt(at, k);
    var st := State(at, gas, s, w);
    StepPush(m, code, st, k);
    RunOne(m, code, st, 9 * k + 2);
    var head := State(Head(at, k), gas - 3, s + [k], w);
    Iterations(m, code, at, k, s, k, gas - 3, w);
    RunCompose(m, code, head, 9 * k, 1);
    var last := State(Branch(at, k) + 1, gas - 3 - 30 * k, s + [0], w);
    PopStep(m, code, last, s, 0);
    RunOne(m, code, last, 1);
    RunNone(m, code, Step(m, code, last).st);
  }

  lemma HeadAt(at: nat, k: Word)
    ensures Head(at, k) == at + |InstrBytes(Push(k))|
  {
  }

  lemma LoopLength(at: nat, k: Word)
    requires Head(at, k) < WORD
    ensures at + |LoopBytes(k, Head(at, k))| == Branch(at, k) + 2
  {
    OnePushed();
  }
}
