/**
 The small machine on which generated and minimised bytecode is run: the stack,
 gas and control flow of the Ethereum Yellow Paper (sections 9.4.2, 9.4.3, 9.5 and
 Appendix H.2), with every other instruction supplied by the host.
 */
module Evm {
  import opened Bytes

  const WORD: nat := 0x1_0000_0000_0000_0000_0000_0000_0000_0000_0000_0000_0000_0000_0000_0000_0000_0000
  const STACK_LIMIT: nat := 1024

  type Word = w: nat | w < WORD

  /** What an instruction may use besides the program counter, the gas and the stack. */
  datatype World = World(memory: seq<byte>, storage: map<Word, Word>, transient: map<Word, Word>,
                         returnData: seq<byte>, rest: seq<Word>)

  /** pc, gas and stack of the running frame; the top of the stack is the last item. */
  datatype State = State(pc: nat, gas: nat, stack: seq<Word>, world: World)

  /** How a host instruction ends: it stops the frame, or yields a result and a new world.
      An instruction that lets the frame go on costs at least one unit of gas, so only the
      rest of its price is free. */
  datatype HostResult = HostStop(fee: nat) | HostGo(rest: nat, out: Word, world: World)
  {
    function Price(): nat { if HostStop? then fee else rest + 1 }
  }

  /** The instructions the machine does not interpret itself. `host` serves those that
      cannot see the running code; `inspect` serves those that can. */
  datatype Machine = Machine(
    host: (byte, seq<Word>, nat, World) -> HostResult,
    inspect: (byte, seq<byte>, seq<Word>, nat, World) -> HostResult)

  datatype Halt = Stopped | OutOfGas | Underflow | Overflow | BadJump | BadOp | HostHalt
  datatype Result = Next(st: State) | Halted(why: Halt)

  /** One traced step: what the opcode hook sees before the instruction is executed. */
  datatype Entry = Entry(pc: nat, op: byte, gas: nat, cost: nat, stack: seq<Word>)

  const STOP: byte := 0x00
  const ADD: byte := 0x01
  const MUL: byte := 0x02
  const SUB: byte := 0x03
  const DIV: byte := 0x04
  const SDIV: byte := 0x05
  const MOD: byte := 0x06
  const SMOD: byte := 0x07
  const ADDMOD: byte := 0x08
  const MULMOD: byte := 0x09
  const EXP: byte := 0x0a
  const SIGNEXTEND: byte := 0x0b
  const LT: byte := 0x10
  const GT: byte := 0x11
  const SLT: byte := 0x12
  const SGT: byte := 0x13
  const EQ: byte := 0x14
  const ISZERO: byte := 0x15
  const AND: byte := 0x16
  const OR: byte := 0x17
  const XOR: byte := 0x18
  const NOT: byte := 0x19
  const BYTE: byte := 0x1a
  const SHL: byte := 0x1b
  const SHR: byte := 0x1c
  const SAR: byte := 0x1d
  const CLZ: byte := 0x1e
  const POP: byte := 0x50
  const MSTORE: byte := 0x52
  const MSTORE8: byte := 0x53
  const JUMP: byte := 0x56
  const JUMPI: byte := 0x57
  const PC: byte := 0x58
  const GAS: byte := 0x5a
  const JUMPDEST: byte := 0x5b
  const PUSH0: byte := 0x5f
  const PUSH1: byte := 0x60
  const PUSH32: byte := 0x7f
  const DUP1: byte := 0x80
  const DUP5: byte := 0x84
  const DUP6: byte := 0x85
  const SWAP1: byte := 0x90
  const CREATE: byte := 0xf0
  const CALL: byte := 0xf1
  const CALLCODE: byte := 0xf2
  const DELEGATECALL: byte := 0xf4
  const CREATE2: byte := 0xf5
  const STATICCALL: byte := 0xfa

  /** Number of immediate bytes that follow an opcode. */
  function Immediate(op: byte): nat
  {
    if PUSH1 <= op <= PUSH32 then op - PUSH0 else 0
  }

  /** Instructions of Appendix H.2, and CLZ of EIP-7939. */
  predicate Defined(op: byte)
  {
    || op <= 0x0b || 0x10 <= op <= 0x1e || op == 0x20 || 0x30 <= op <= 0x4a || 0x50 <= op <= 0xa4
    || 0xf0 <= op <= 0xf5 || op == 0xfa || op == 0xfd || op == 0xff
  }

  /** Items removed from the stack (the column delta of Appendix H.2). */
  function Pops(op: byte): nat
  {
    if op == STOP then 0
    else if op == ADDMOD || op == MULMOD then 3
    else if op <= 0x0b then 2
    else if op == ISZERO || op == NOT || op == CLZ then 1
    else if 0x10 <= op <= 0x1e || op == 0x20 then 2
    else if op == 0x31 || op == 0x35 || op == 0x3b || op == 0x3f || op == 0x40 || op == 0x49 then 1
    else if op == 0x37 || op == 0x39 || op == 0x3e || op == 0x5e then 3
    else if op == 0x3c then 4
    else if op == POP || op == 0x51 || op == 0x54 || op == JUMP || op == 0x5c || op == 0xff then 1
    else if op == MSTORE || op == MSTORE8 || op == 0x55 || op == JUMPI || op == 0x5d then 2
    else if 0x80 <= op <= 0x8f then op - 0x7f
    else if 0x90 <= op <= 0x9f then op - 0x8e
    else if 0xa0 <= op <= 0xa4 then op - 0x9e
    else if op == CREATE then 3
    else if op == CREATE2 then 4
    else if op == CALL || op == CALLCODE then 7
    else if op == DELEGATECALL || op == STATICCALL then 6
    else if op == 0xf3 || op == 0xfd then 2
    else 0
  }

  /** Items put on the stack (the column alpha of Appendix H.2). */
  function Pushes(op: byte): nat
  {
    if op == STOP then 0
    else if op <= 0x0b || 0x10 <= op <= 0x1e || op == 0x20 then 1
    else if op == 0x37 || op == 0x39 || op == 0x3c || op == 0x3e || op == 0x5e then 0
    else if 0x30 <= op <= 0x4a then 1
    else if op == 0x51 || op == 0x54 || op == 0x5c || op == PC || op == 0x59 || op == GAS then 1
    else if 0x5f <= op <= 0x7f then 1
    else if 0x80 <= op <= 0x8f then op - 0x7e
    else if 0x90 <= op <= 0x9f then op - 0x8e
    else if op == CREATE || op == CREATE2 || op == CALL || op == CALLCODE then 1
    else if op == DELEGATECALL || op == STATICCALL then 1
    else 0
  }

  /** Instructions whose effect can depend on the bytes of the running code. */
  predicate Inspects(op: byte)
  {
    || op == 0x38 || op == 0x39 || op == 0x3b || op == 0x3c || op == 0x3f
    || op == CREATE || op == CREATE2 || op == CALL || op == CALLCODE || op == DELEGATECALL || op == STATICCALL
  }

  /** Instructions interpreted below; all other defined ones belong to the host. */
  predicate Core(op: byte)
  {
    || op == STOP || op == ADD || op == MUL || op == SUB || op == DIV || op == MOD
    || op == LT || op == GT || op == EQ || op == ISZERO
    || op == POP || op == JUMP || op == JUMPI || op == PC || op == GAS || op == JUMPDEST
    || 0x5f <= op <= 0x9f
  }

  function CorePrice(op: byte): nat
  {
    if op == STOP then 0
    else if op == JUMPDEST then 1
    else if op == POP || op == PC || op == GAS || op == PUSH0 then 2
    else if op == MUL || op == DIV || op == MOD then 5
    else if op == JUMP then 8
    else if op == JUMPI then 10
    else 3
  }

  /** Past its end the code continues with STOP. */
  function OpAt(code: seq<byte>, pc: nat): byte
  {
    if pc < |code| then code[pc] else STOP
  }

  /** The value of k immediate bytes starting at `at`; missing bytes read as zero. */
  function Pushed(code: seq<byte>, at: nat, k: nat): nat
  {
    if k == 0 then 0 else Pushed(code, at, k - 1) * 256 + OpAt(code, at + k - 1)
  }

  /** Whether decoding instructions from `from` reaches exactly position `to`. */
  predicate Boundary(code: seq<byte>, from: nat, to: nat)
    decreases if from <= to then to - from else 0
  {
    if from >= to then from == to
    else from < |code| && Boundary(code, from + 1 + Immediate(code[from]), to)
  }

  /** Jump destinations (section 9.4.3): JUMPDEST bytes outside push data. */
  predicate ValidDest(code: seq<byte>, d: nat)
  {
    d < |code| && code[d] == JUMPDEST && Boundary(code, 0, d)
  }

  /** Words are computed modulo 2^256. */
  function Wrap(x: int): Word
  {
    x % WORD
  }

  function Arith(op: byte, a: Word, b: Word): Word
  {
    if op == ADD then Wrap(a + b)
    else if op == MUL then Wrap(a * b)
    else if op == SUB then Wrap(a - b)
    else if op == DIV then (if b == 0 then 0 else Wrap(a / b))
    else if op == MOD then (if b == 0 then 0 else Wrap(a % b))
    else if op == LT then (if a < b then 1 else 0)
    else if op == GT then (if a > b then 1 else 0)
    else (if a == b then 1 else 0)
  }

  /** The operands an instruction takes, top of the stack last. */
  function Operands(op: byte, stack: seq<Word>): seq<Word>
  {
    if |stack| < Pops(op) then [] else stack[|stack| - Pops(op)..]
  }

  function CallHost(m: Machine, code: seq<byte>, op: byte, st: State): HostResult
  {
    if Inspects(op) then m.inspect(op, code, Operands(op, st.stack), st.gas, st.world)
    else m.host(op, Operands(op, st.stack), st.gas, st.world)
  }

  function Cost(m: Machine, code: seq<byte>, op: byte, st: State): nat
  {
    if !Defined(op) then 0
    else if Core(op) then CorePrice(op)
    else if |st.stack| < Pops(op) then 0
    else CallHost(m, code, op, st).Price()
  }

  /** The exceptional halting conditions of section 9.4.2, in the order the
      interpreter tests them. */
  function Fault(m: Machine, code: seq<byte>, op: byte, st: State): (f: Result)
    ensures f.Next? ==> |st.stack| >= Pops(op) && Defined(op)
    ensures f.Next? ==> st.gas >= Cost(m, code, op, st) && f.st == st
  {
    if !Defined(op) then Halted(BadOp)
    else if |st.stack| < Pops(op) then Halted(Underflow)
    else if |st.stack| - Pops(op) + Pushes(op) > STACK_LIMIT then Halted(Overflow)
    else if st.gas < Cost(m, code, op, st) then Halted(OutOfGas)
    else Next(st)
  }

  function PushedWord(code: seq<byte>, at: nat, k: nat): Word
  {
    Wrap(Pushed(code, at, k))
  }

  function JumpTo(code: seq<byte>, d: Word, st: State): Result
  {
    if ValidDest(code, d) then Next(st.(pc := d)) else Halted(BadJump)
  }

  /** The effect of a core instruction whose operands and gas are available. */
  function Execute(code: seq<byte>, op: byte, st: State): (r: Result)
    requires Core(op) && |st.stack| >= Pops(op) && st.gas >= CorePrice(op)
    ensures r.Next? ==> r.st.gas == st.gas - CorePrice(op) && op != STOP
  {
    var s := st.stack;
    var n := |s|;
    var go := st.(gas := st.gas - CorePrice(op), pc := st.pc + 1 + Immediate(op));
    if op == STOP then Halted(Stopped)
    else if op == POP then Next(go.(stack := s[..n - 1]))
    else if op == JUMPDEST then Next(go)
    else if op == PC then Next(go.(stack := s + [Wrap(st.pc)]))
    else if op == GAS then Next(go.(stack := s + [Wrap(go.gas)]))
    else if op == JUMP then JumpTo(code, s[n - 1], go.(stack := s[..n - 1]))
    else if op == JUMPI then
      var rest := go.(stack := s[..n - 2]);
      if s[n - 2] != 0 then JumpTo(code, s[n - 1], rest) else Next(rest)
    else if op == ISZERO then Next(go.(stack := s[..n - 1] + [if s[n - 1] == 0 then 1 else 0]))
    else if PUSH0 <= op <= PUSH32 then Next(go.(stack := s + [PushedWord(code, st.pc + 1, Immediate(op))]))
    else if 0x80 <= op <= 0x8f then Next(go.(stack := s + [s[n - (op - 0x7f)]]))
    else if 0x90 <= op <= 0x9f then
      var k := n - 1 - (op - 0x8f);
      Next(go.(stack := s[k := s[n - 1]][n - 1 := s[k]]))
    else Next(go.(stack := s[..n - 2] + [Arith(op, s[n - 1], s[n - 2])]))
  }

  function Step(m: Machine, code: seq<byte>, st: State): (r: Result)
    ensures r.Next? ==> r.st.gas < st.gas
  {
    var op := OpAt(code, st.pc);
    var f := Fault(m, code, op, st);
    if f.Halted? then f
    else if Core(op) then Execute(code, op, st)
    else
      var h := CallHost(m, code, op, st);
      if h.HostStop? then Halted(HostHalt)
      else
        var kept := st.stack[..|st.stack| - Pops(op)];
        Next(State(st.pc + 1, st.gas - h.Price(), if Pushes(op) == 1 then kept + [h.out] else kept, h.world))
  }

  function Log(m: Machine, code: seq<byte>, st: State): Entry
  {
    var op := OpAt(code, st.pc);
    Entry(st.pc, op, st.gas, Cost(m, code, op, st), st.stack)
  }

  /** The trace of a run: one entry before every attempted instruction. */
  function Trace(m: Machine, code: seq<byte>, st: State): (t: seq<Entry>)
    ensures |t| >= 1 && t[0] == Log(m, code, st)
    decreases st.gas
  {
    [Log(m, code, st)] +
    match Step(m, code, st)
    case Next(st') => Trace(m, code, st')
    case Halted(_) => []
  }

  /** The result of k instructions, or of the one that halted before that. */
  function Run(m: Machine, code: seq<byte>, st: State, k: nat): Result
    decreases k
  {
    if k == 0 then Next(st)
    else
      match Step(m, code, st)
      case Next(st') => Run(m, code, st', k - 1)
      case Halted(why) => Halted(why)
  }

  lemma {:induction false} RunCompose(m: Machine, code: seq<byte>, st: State, j: nat, k: nat)
    requires Run(m, code, st, j).Next?
    ensures Run(m, code, st, j + k) == Run(m, code, Run(m, code, st, j).st, k)
    decreases j
  {
    hide Step;
    if j == 0 {
    } else {
      RunCompose(m, code, Step(m, code, st).st, j - 1, k);
    }
  }

  // ---------------------------------------------------------------- decoding

  /** Decoding up to `to` looks only at bytes before `to`. */
  lemma {:induction false} BoundaryOfPrefix(a: seq<byte>, b: seq<byte>, from: nat, to: nat)
    requires to <= |a| && to <= |b| && a[..to] == b[..to]
    ensures Boundary(a, from, to) == Boundary(b, from, to)
    decreases if from <= to then to - from else 0
  {
    if from >= to {
    } else {
      assert a[from] == a[..to][from] == b[from];
      BoundaryOfPrefix(a, b, from + 1 + Immediate(a[from]), to);
    }
  }

  /** Two decodings in a row make one. */
  lemma {:induction false} BoundaryJoin(code: seq<byte>, x: nat, y: nat, z: nat)
    requires Boundary(code, x, y) && y <= z
    ensures Boundary(code, x, z) == Boundary(code, y, z)
    decreases if x <= y then y - x else 0
  {
    if x >= y {
    } else {
      BoundaryJoin(code, x + 1 + Immediate(code[x]), y, z);
    }
  }

  /** Decoding does not depend on where the bytes stand. */
  lemma {:induction false} BoundaryShift(pre: seq<byte>, mid: seq<byte>, from: nat, to: nat)
    ensures Boundary(pre + mid, |pre| + from, |pre| + to) == Boundary(mid, from, to)
    decreases if from <= to then to - from else 0
  {
    if from >= to || from >= |mid| {
    } else {
      assert (pre + mid)[|pre| + from] == mid[from];
      BoundaryShift(pre, mid, from + 1 + Immediate(mid[from]), to);
    }
  }

  lemma ValidDestOfPrefix(code: seq<byte>, n: nat, d: nat)
    requires n <= |code| && d < n
    ensures ValidDest(code[..n], d) == ValidDest(code, d)
  {
    BoundaryOfPrefix(code[..n], code, 0, d);
  }
}
