/** Straight-line code: stack heights by instruction, and what they mean for a run. */
module Straight {
  import opened Bytes
  import opened Evm
  import opened Prefix
  import opened Assembler

  /** Instructions after which the machine, if it goes on, goes on with the next one. */
  predicate StraightLine(i: Instr)
  {
    i.Op? ==> Defined(i.b) && Immediate(i.b) == 0 && i.b != STOP && i.b != JUMP && i.b != JUMPI
  }

  predicate AllStraight(ins: seq<Instr>)
  {
    forall j :: 0 <= j < |ins| ==> StraightLine(ins[j])
  }

  function Needs(i: Instr): nat
  {
    if i.Push? then 0 else Pops(i.b)
  }

  function Gives(i: Instr): nat
  {
    if i.Push? then 1 else Pushes(i.b)
  }

  /** Started with h items, no instruction lacks an operand. */
  predicate Fits(ins: seq<Instr>, h: int)
    decreases |ins|
  {
    ins == [] || (Needs(ins[0]) <= h && Fits(ins[1..], h - Needs(ins[0]) + Gives(ins[0])))
  }

  /** The height after the instructions. */
  function After(ins: seq<Instr>, h: int): int
    decreases |ins|
  {
    if ins == [] then h else After(ins[1..], h - Needs(ins[0]) + Gives(ins[0]))
  }

  lemma {:induction false} FitsJoin(a: seq<Instr>, b: seq<Instr>, h: int)
    ensures Fits(a + b, h) <==> Fits(a, h) && Fits(b, After(a, h))
    ensures After(a + b, h) == After(b, After(a, h))
    decreases |a|
  {
    if a == [] {
      assert a + b == b;
    } else {
      assert (a + b)[1..] == a[1..] + b;
      FitsJoin(a[1..], b, h - Needs(a[0]) + Gives(a[0]));
    }
  }

  /** Runs until the program counter is `stop`. */
  function RunUntil(m: Machine, code: seq<byte>, st: State, stop: nat): Result
    decreases st.gas
  {
    if st.pc == stop then Next(st)
    else
      match Step(m, code, st)
      case Next(st') => RunUntil(m, code, st', stop)
      case Halted(why) => Halted(why)
  }

  /** The ways a straight-line instruction with its operands present can end the frame. */
  predicate Excused(why: Halt)
  {
    why == OutOfGas || why == Overflow || why == HostHalt
  }

  /** What a step from st to r can be, if the items below `base` are left alone. */
  predicate GoodStep(st: State, r: Result, base: nat, i: Instr)
    requires base <= |st.stack|
  {
    match r
    case Halted(why) => Excused(why)
    case Next(t) =>
      && t.pc == st.pc + |InstrBytes(i)|
      && |t.stack| == |st.stack| - Needs(i) + Gives(i)
      && base <= |t.stack| && t.stack[..base] == st.stack[..base]
  }

  lemma OpHolds(code: seq<byte>, at: nat, b: byte)
    requires Holds(code, at, InstrBytes(Op(b)))
    ensures OpAt(code, at) == b && |InstrBytes(Op(b))| == 1
  {
    assert code[at..at + 1][0] == code[at];
  }

  lemma CoreStep(m: Machine, code: seq<byte>, st: State, b: byte, base: nat)
    requires OpAt(code, st.pc) == b && StraightLine(Op(b)) && Core(b)
    requires base + Pops(b) <= |st.stack| && |InstrBytes(Op(b))| == 1
    ensures GoodStep(st, Step(m, code, st), base, Op(b))
  {
    CoreIs(m, code, st);
    hide Step;
    if Fault(m, code, b, st).Halted? {
      FaultExcused(m, code, b, st);
    } else {
      ExecuteStraight(code, b, st, base);
    }
    hide Execute;
    hide Pops;
    hide Pushes;
    hide Core;
    hide InstrBytes;
  }

  lemma FaultExcused(m: Machine, code: seq<byte>, b: byte, st: State)
    requires StraightLine(Op(b)) && Core(b) && Pops(b) <= |st.stack|
    ensures Fault(m, code, b, st).Halted? ==> Excused(Fault(m, code, b, st).why)
  {
    hide Pops;
    hide Pushes;
    hide Core;
  }

  /** A core instruction that is not a jump goes on with the next one. */
  lemma ExecuteStraight(code: seq<byte>, b: byte, st: State, base: nat)
    requires StraightLine(Op(b)) && Core(b) && base + Pops(b) <= |st.stack| && st.gas >= CorePrice(b)
    ensures var r := Execute(code, b, st);
            && r.Next? && r.st.pc == st.pc + 1
            && |r.st.stack| == |st.stack| - Pops(b) + Pushes(b)
            && base <= |r.st.stack| && r.st.stack[..base] == st.stack[..base]
  {
    hide ValidDest;
    hide Arith;
    hide Wrap;
    hide PushedWord;
    hide CorePrice;
    hide Defined;
  }

  lemma HostStep(m: Machine, code: seq<byte>, st: State, b: byte, base: nat)
    requires OpAt(code, st.pc) == b && StraightLine(Op(b)) && !Core(b)
    requires base + Pops(b) <= |st.stack| && |InstrBytes(Op(b))| == 1
    ensures GoodStep(st, Step(m, code, st), base, Op(b))
  {
    hide CallHost;
    hide InstrBytes;
    HostPushes(b);
    hide Pushes;
    hide Pops;
  }

  lemma HostPushes(b: byte)
    requires StraightLine(Op(b)) && !Core(b)
    ensures Pushes(b) <= 1
  {
  }

  lemma InstrStep(m: Machine, code: seq<byte>, st: State, i: Instr, base: nat)
    requires Holds(code, st.pc, InstrBytes(i)) && StraightLine(i) && base + Needs(i) <= |st.stack|
    ensures GoodStep(st, Step(m, code, st), base, i)
  {
    hide Step;
    match i
    case Push(v) =>
      StepPush(m, code, st, v);
      hide InstrBytes;
      assert (st.stack + [v])[..base] == st.stack[..base];
    case Op(b) =>
      OpHolds(code, st.pc, b);
      hide InstrBytes;
      if Core(b) {
        CoreStep(m, code, st, b, base);
      } else {
        HostStep(m, code, st, b, base);
      }
  }

  /** What a run over a block can come to. */
  predicate GoodRun(st: State, r: Result, base: nat, stop: nat, height: int)
    requires base <= |st.stack|
  {
    match r
    case Halted(why) => Excused(why)
    case Next(t) =>
      t.pc == stop && |t.stack| == height && base <= |t.stack| && t.stack[..base] == st.stack[..base]
  }

  /** A block that fits above `base` never underflows when it is run, wherever it stands:
      either the frame ends for another reason, or the run gets to the end of the block
      with the height that was predicted and the items below `base` untouched. */
  lemma {:induction false} BlockRuns(m: Machine, code: seq<byte>, st: State, ins: seq<Instr>, base: nat)
    requires Holds(code, st.pc, Assemble(ins)) && AllStraight(ins)
    requires base <= |st.stack| && Fits(ins, |st.stack| - base)
    ensures GoodRun(st, RunUntil(m, code, st, st.pc + |Assemble(ins)|), base, st.pc + |Assemble(ins)|,
                    base + After(ins, |st.stack| - base))
    decreases |ins|
  {
    hide Step;
    hide Needs;
    hide Gives;
    hide StraightLine;
    hide InstrBytes;
    hide Holds;
    var stop := st.pc + |Assemble(ins)|;
    if ins == [] {
    } else {
      AssembleFirst(ins);
      hide Assemble;
      HoldsSplit(code, st.pc, InstrBytes(ins[0]), Assemble(ins[1..]));
      InstrStep(m, code, st, ins[0], base);
      RunUntilStep(m, code, st, stop);
      var r := Step(m, code, st);
      if r.Next? {
        BlockRuns(m, code, r.st, ins[1..], base);
        GoodThen(st, ins[0], r.st, RunUntil(m, code, r.st, stop), base, stop,
                 base + After(ins[1..], |r.st.stack| - base));
      }
    }
  }

  lemma RunUntilStep(m: Machine, code: seq<byte>, st: State, stop: nat)
    requires st.pc < stop
    ensures RunUntil(m, code, st, stop) ==
              var r := Step(m, code, st); if r.Next? then RunUntil(m, code, r.st, stop) else r
  {
    hide Step;
  }

  lemma GoodThen(st: State, i: Instr, t: State, r: Result, base: nat, stop: nat, height: int)
    requires base <= |st.stack| && GoodStep(st, Next(t), base, i) && GoodRun(t, r, base, stop, height)
    ensures GoodRun(st, r, base, stop, height)
  {
    hide Needs;
    hide Gives;
    hide InstrBytes;
  }

  /** A run to a later point goes through an earlier one of the same straight line. */
  lemma {:induction false} RunUntilJoin(m: Machine, code: seq<byte>, st: State, ins: seq<Instr>, stop: nat)
    requires Holds(code, st.pc, Assemble(ins)) && AllStraight(ins) && Fits(ins, |st.stack|)
    requires stop >= st.pc + |Assemble(ins)|
    ensures var r := RunUntil(m, code, st, st.pc + |Assemble(ins)|);
            RunUntil(m, code, st, stop) == if r.Next? then RunUntil(m, code, r.st, stop) else r
    decreases |ins|
  {
    hide Step;
    hide Needs;
    hide Gives;
    hide StraightLine;
    hide InstrBytes;
    hide Holds;
    if ins == [] {
    } else {
      AssembleFirst(ins);
      hide Assemble;
      HoldsSplit(code, st.pc, InstrBytes(ins[0]), Assemble(ins[1..]));
      InstrStep(m, code, st, ins[0], 0);
      RunUntilStep(m, code, st, stop);
      RunUntilStep(m, code, st, st.pc + |Assemble(ins)|);
      var r := Step(m, code, st);
      if r.Next? {
        RunUntilJoin(m, code, r.st, ins[1..], stop);
      }
    }
  }
}
