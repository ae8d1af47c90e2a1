/** What the strategies emit that have to emit code that behaves, and what is tracked of it:
    jumps, stack-aware operations, stack fills, create-then-call. */
module Emission {
  import opened Bytes
  import opened Evm
  import opened Fill
  import opened Assembler
  import opened Straight
  import opened BoundedLoop

  /** Go cannot make a slice longer than this. */
  const MAX_LEN: nat := 0x8000_0000_0000_0000

  const MAX_WORD: Word := WORD - 1
  const MIN_INT: Word := 0x8000_0000_0000_0000_0000_0000_0000_0000_0000_0000_0000_0000_0000_0000_0000_0000

  /** The bytes still allowed to a whole tree of programs. */
  class Budget {
    var left: int

    constructor (n: int)
      ensures left == n
    {
      left := n;
    }
  }

  datatype StackOp = StackOp(op: byte, pop: nat, push: nat)

  const STACK_AWARE_OPS: seq<StackOp> := [
    StackOp(ADD, 2, 1), StackOp(MUL, 2, 1), StackOp(SUB, 2, 1), StackOp(DIV, 2, 1),
    StackOp(SDIV, 2, 1), StackOp(MOD, 2, 1), StackOp(SMOD, 2, 1), StackOp(EXP, 2, 1),
    StackOp(SIGNEXTEND, 2, 1), StackOp(LT, 2, 1), StackOp(GT, 2, 1), StackOp(SLT, 2, 1),
    StackOp(SGT, 2, 1), StackOp(EQ, 2, 1), StackOp(AND, 2, 1), StackOp(OR, 2, 1),
    StackOp(XOR, 2, 1), StackOp(BYTE, 2, 1), StackOp(SHL, 2, 1), StackOp(SHR, 2, 1),
    StackOp(SAR, 2, 1),
    StackOp(ADDMOD, 3, 1), StackOp(MULMOD, 3, 1),
    StackOp(ISZERO, 1, 1), StackOp(NOT, 1, 1)]

  const INTERESTING: seq<Word> := [0, 1, 2, 31, 32, 255, 256, MAX_WORD, MIN_INT, MIN_INT - 1]

  /** The table of stack effects is that of the machine. */
  lemma TableAgrees(i: nat)
    requires i < |STACK_AWARE_OPS|
    ensures var so := STACK_AWARE_OPS[i];
            so.pop == Pops(so.op) && so.push == Pushes(so.op) && StraightLine(Op(so.op)) && so.push == 1 <= so.pop
  {
  }

  // ---------------------------------------------------------------- what is emitted

  function JumpInstrs(dest: Word): seq<Instr>
  {
    [Push(dest), Op(JUMP)]
  }

  function JumpIfInstrs(dest: Word, condition: Word): seq<Instr>
  {
    [Push(condition), Push(dest), Op(JUMPI)]
  }

  function InvalidJumpInstrs(at: nat): seq<Instr>
  {
    [Push(0x5b), Op(POP), Push(Wrap(at + 1)), Op(JUMP)]
  }

  function Repeat(i: Instr, n: nat): (r: seq<Instr>)
    ensures |r| == n
  {
    seq(n, _ => i)
  }

  /** Grows the stack by depth copies and, unless the frame is meant to die, drains it. */
  function StackFillInstrs(depth: nat, overflow: bool): seq<Instr>
  {
    [Op(PUSH0)] + Repeat(Op(DUP1), depth) + if overflow then [] else Repeat(Op(POP), depth)
  }

  function MstoreWord(data: seq<byte>, idx: nat): seq<Instr>
    requires idx + 32 <= |data|
  {
    [Push(Wrap(BigEndian(data[idx..idx + 32]))), Push(idx % TWO_32), Op(MSTORE)]
  }

  function MstoreByte(data: seq<byte>, idx: nat): seq<Instr>
    requires idx < |data|
  {
    [Push(data[idx]), Push(idx % TWO_32), Op(MSTORE8)]
  }

  /** Stores data in memory from offset 0 on: words of 32 bytes, then single bytes. */
  function MstoreInstrs(data: seq<byte>, idx: nat): seq<Instr>
    requires idx <= |data|
    decreases |data| - idx
  {
    if idx + 32 <= |data| then
      MstoreWord(data, idx) + MstoreInstrs(data, idx + 32)
    else if idx < |data| then
      MstoreByte(data, idx) + MstoreInstrs(data, idx + 1)
    else []
  }

  /** Creates a contract from the init code in memory. */
  function CreateInstrs(size: Word, isCreate2: bool): seq<Instr>
  {
    (if isCreate2 then [Push(0)] else []) + [Push(size), Push(0), Push(0), Op(if isCreate2 then CREATE2 else CREATE)]
  }

  predicate TakesValue(callOp: byte)
  {
    callOp == CALL || callOp == CALLCODE
  }

  /** The operands of the call: no memory, no value, the created address, all gas. */
  function CallOperands(callOp: byte): seq<Instr>
  {
    [Push(0), Push(0), Push(0), Push(0)] + (if TakesValue(callOp) then [Push(0)] else [])
    + [Op(if TakesValue(callOp) then DUP6 else DUP5), Op(GAS)]
  }

  function CreateAndCallInstrs(init: seq<byte>, isCreate2: bool, callOp: byte): seq<Instr>
  {
    MstoreInstrs(init, 0) + CreateInstrs(Wrap(|init|), isCreate2) + CallOperands(callOp) + [Op(callOp)]
  }

  /** The part of the init code the budget can still afford. */
  function Clip(init: seq<byte>, budget: int): (r: seq<byte>)
    ensures r <= init && (budget > 0 ==> 4 * |r| <= budget) && (budget <= 0 ==> r == [])
    ensures 4 * |init| <= budget ==> r == init
    ensures |r| < |init| ==> 4 * (|r| + 1) > budget
  {
    var maxCode := GoDiv(budget, 4);
    if |init| > maxCode then init[..if maxCode < 0 then 0 else maxCode] else init
  }

  // ---------------------------------------------------------------- heights

  /** Run from any height at or above `before`, the instructions never lack an operand and
      end at or above `after`. */
  ghost predicate Tracks(ins: seq<Instr>, before: int, after: int)
  {
    && AllStraight(ins)
    && forall h: int :: h >= 0 && h >= before ==> Fits(ins, h) && After(ins, h) >= after
  }

  /** What tracks from an empty model tracks from every one. */
  lemma TracksAnywhere(ins: seq<Instr>, before: int, after: int)
    requires Tracks(ins, 0, after)
    ensures Tracks(ins, before, after)
  {
  }

  lemma {:induction false} AfterNonNegative(ins: seq<Instr>, h: int)
    requires h >= 0 && Fits(ins, h)
    ensures After(ins, h) >= 0
    decreases |ins|
  {
    if ins == [] {
    } else {
      AfterNonNegative(ins[1..], h - Needs(ins[0]) + Gives(ins[0]));
    }
  }

  lemma TracksJoin(a: seq<Instr>, b: seq<Instr>, x: int, y: int, z: int)
    requires Tracks(a, x, y) && Tracks(b, y, z)
    ensures Tracks(a + b, x, z)
  {
    forall h: int | h >= 0 && h >= x
      ensures Fits(a + b, h) && After(a + b, h) >= z
    {
      FitsJoin(a, b, h);
      AfterNonNegative(a, h);
    }
  }

  function Flatten(chunks: seq<seq<Instr>>): seq<Instr>
  {
    if chunks == [] then [] else Flatten(chunks[..|chunks| - 1]) + chunks[|chunks| - 1]
  }

  /** Any sequence of steps that each keep the modelled height below the real one does so
      as a whole. */
  lemma {:induction false} TracksAll(chunks: seq<seq<Instr>>, heights: seq<int>)
    requires |heights| == |chunks| + 1
    requires forall j :: 0 <= j < |chunks| ==> Tracks(chunks[j], heights[j], heights[j + 1])
    ensures Tracks(Flatten(chunks), heights[0], heights[|chunks|])
    decreases |chunks|
  {
    if chunks == [] {
    } else {
      var n := |chunks| - 1;
      TracksAll(chunks[..n], heights[..n + 1]);
      TracksJoin(Flatten(chunks[..n]), chunks[n], heights[0], heights[n], heights[n + 1]);
    }
  }

  /** On the machine: started at a real height not below the modelled one, tracked code
      never underflows, and while the frame is live the real height is at the end not below
      the modelled one. */
  lemma TrackedRuns(m: Machine, code: seq<byte>, st: State, ins: seq<Instr>, before: int, after: int)
    requires Tracks(ins, before, after) && before <= |st.stack| && Holds(code, st.pc, Assemble(ins))
    ensures var r := RunUntil(m, code, st, st.pc + |Assemble(ins)|);
            match r case Halted(why) => Excused(why) case Next(t) => |t.stack| >= after
  {
    hide RunUntil;
    hide Fits;
    hide After;
    hide AllStraight;
    BlockRuns(m, code, st, ins, 0);
  }

  lemma {:induction false} RepeatHeight(i: Instr, n: nat, h: int)
    requires Needs(i) <= h && (Gives(i) >= Needs(i) || h >= n * Needs(i)) && Needs(i) <= 1
    ensures Fits(Repeat(i, n), h) && After(Repeat(i, n), h) == h + n * (Gives(i) - Needs(i))
    decreases n
  {
    hide Needs;
    hide Gives;
    if n == 0 {
    } else if n == 1 {
      assert Repeat(i, n)[1..] == [];
    } else {
      assert Repeat(i, n)[1..] == Repeat(i, n - 1);
      hide Repeat;
      OneLess(n, Gives(i) - Needs(i));
      OneLess(n, Needs(i));
      RepeatHeight(i, n - 1, h - Needs(i) + Gives(i));
    }
  }

  lemma OneLess(n: nat, d: int)
    requires n > 0
    ensures n * d == (n - 1) * d + d
  {
  }
}
