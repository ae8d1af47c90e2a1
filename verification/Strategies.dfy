/** The environment of one program under construction, and its strategies. */
module Strategies {
  import opened Bytes
  import opened Evm
  import opened Fill
  import opened Assembler
  import opened Straight
  import opened BoundedLoop
  import opened Emission
  import opened Draws

  /** A cached label: a JUMPDEST byte of the code, and, unless a raw PUSH byte has been
      emitted, a valid destination. */
  predicate GoodLabel(code: seq<byte>, asm: seq<Instr>, l: nat)
  {
    l < |code| && l < MAX_LEN && code[l] == JUMPDEST && (Clean(asm) ==> ValidDest(code, l))
  }

  /** An emitted loop: where it starts and its counter. */
  datatype Loop = Loop(at: nat, k: Word)

  /** Unless a raw PUSH byte has been emitted, the machine can be run on the loop. */
  predicate GoodLoop(code: seq<byte>, asm: seq<Instr>, l: Loop)
  {
    1 <= l.k <= 16 && (Clean(asm) ==> Site(code, l.at, l.k))
  }

  lemma GoodLoopStays(code: seq<byte>, asm: seq<Instr>, l: Loop, more: seq<Instr>)
    requires GoodLoop(code, asm, l)
    ensures GoodLoop(code + Assemble(more), asm + more, l)
  {
    hide Site;
    hide Clean;
    CleanPrefix(asm, more);
    if Clean(asm + more) {
      SiteStays(code, Assemble(more), l.at, l.k);
    }
  }

  /** An emitted jump to a cached label: where it starts and, if it has one, its condition. */
  datatype EmittedJump = EmittedJump(at: nat, dest: Word, condition: Option<Word>)

  function JumpCode(j: EmittedJump): seq<Instr>
  {
    match j.condition
    case None => JumpInstrs(j.dest)
    case Some(c) => JumpIfInstrs(j.dest, c)
  }

  /** The jump stands in the code, and its destination is a good label. */
  predicate GoodJump(code: seq<byte>, asm: seq<Instr>, j: EmittedJump)
  {
    GoodLabel(code, asm, j.dest) && Holds(code, j.at, Assemble(JumpCode(j)))
  }

  lemma GoodJumpStays(code: seq<byte>, asm: seq<Instr>, j: EmittedJump, more: seq<Instr>)
    requires GoodJump(code, asm, j)
    ensures GoodJump(code + Assemble(more), asm + more, j)
  {
    hide GoodLabel;
    hide Assemble;
    hide JumpCode;
    GoodLabelStays(code, asm, j.dest, more);
    HoldsStays(code, Assemble(more), j.at, Assemble(JumpCode(j)));
  }

  lemma HoldsStays(code: seq<byte>, more: seq<byte>, at: nat, s: seq<byte>)
    requires Holds(code, at, s)
    ensures Holds(code + more, at, s)
  {
    assert (code + more)[at..at + |s|] == code[at..at + |s|];
  }

  lemma GoodLabelStays(code: seq<byte>, asm: seq<Instr>, l: nat, more: seq<Instr>)
    requires GoodLabel(code, asm, l)
    ensures GoodLabel(code + Assemble(more), asm + more, l)
  {
    hide ValidDest;
    if Clean(asm + more) {
      CleanPrefix(asm, more);
      ValidDestStays(code, Assemble(more), l);
    }
  }

  lemma CleanPrefix(a: seq<Instr>, b: seq<Instr>)
    ensures Clean(a + b) <==> Clean(a) && Clean(b)
  {
    if Clean(a + b) {
      forall j | 0 <= j < |b| && b[j].Op?
        ensures Immediate(b[j].b) == 0
      {
        assert (a + b)[|a| + j] == b[j];
      }
      forall j | 0 <= j < |a| && a[j].Op?
        ensures Immediate(a[j].b) == 0
      {
        assert (a + b)[j] == a[j];
      }
    }
  }

  /** A JUMPDEST emitted at the end of clean code is a good label. */
  lemma NewLabel(code: seq<byte>, asm: seq<Instr>)
    requires code == Assemble(asm) && |code| < MAX_LEN
    ensures GoodLabel(code + [JUMPDEST], asm + [Op(JUMPDEST)], |code|)
  {
    hide Assemble;
    hide ValidDest;
    hide Boundary;
    if Clean(asm + [Op(JUMPDEST)]) {
      CleanPrefix(asm, [Op(JUMPDEST)]);
      CleanIsWhole(asm);
      LabelValidExactly(code, []);
      assert code + [JUMPDEST] + [] == code + [JUMPDEST];
    }
  }

  class Environment {
    const f: Filler
    const budget: Budget?
    var code: seq<byte>
    var labels: seq<nat>
    var stackHeight: int
    /** The instructions the code was assembled from, and the loops and the jumps to labels
        among them. */
    ghost var asm: seq<Instr>
    ghost var loops: seq<Loop>
    ghost var jumps: seq<EmittedJump>

    ghost predicate Valid()
      reads this, f
    {
      f.Valid() && Kept()
    }

    /** The code is what was assembled, and its labels, loops and jumps are good. */
    ghost predicate Kept()
      reads this`code, this`asm, this`labels, this`loops, this`jumps
    {
      && code == Assemble(asm)
      && (forall i :: 0 <= i < |labels| ==> GoodLabel(code, asm, labels[i]))
      && (forall i :: 0 <= i < |loops| ==> GoodLoop(code, asm, loops[i]))
      && forall i :: 0 <= i < |jumps| ==> GoodJump(code, asm, jumps[i])
    }

    constructor (f: Filler, budget: Budget?)
      requires f.Valid()
      ensures Valid() && this.f == f && this.budget == budget
      ensures code == [] && asm == [] && labels == [] && loops == [] && jumps == [] && stackHeight == 0
    {
      this.f, this.budget := f, budget;
      code, labels, stackHeight, asm, loops, jumps := [], [], 0, [], [], [];
    }

    /** The assembler: appends the bytes of whole instructions. */
    method Emit(ins: seq<Instr>)
      requires Valid()
      modifies this`code, this`asm
      ensures Valid() && asm == old(asm) + ins && code == old(code) + Assemble(ins)
    {
      hide GoodLabel;
      hide GoodLoop;
      hide GoodJump;
      hide Assemble;
      forall i | 0 <= i < |labels|
        ensures GoodLabel(code + Assemble(ins), asm + ins, labels[i])
      {
        GoodLabelStays(code, asm, labels[i], ins);
      }
      forall i | 0 <= i < |loops|
        ensures GoodLoop(code + Assemble(ins), asm + ins, loops[i])
      {
        GoodLoopStays(code, asm, loops[i], ins);
      }
      forall i | 0 <= i < |jumps|
        ensures GoodJump(code + Assemble(ins), asm + ins, jumps[i])
      {
        GoodJumpStays(code, asm, jumps[i], ins);
      }
      AssembleJoin(asm, ins);
      code := code + Assemble(ins);
      asm := asm + ins;
    }

    method AddLabel() returns (pc: nat)
      requires Valid() && |code| < MAX_LEN
      modifies this`code, this`asm, this`labels
      ensures Valid() && pc == |old(code)| && labels == old(labels) + [pc]
      ensures asm == old(asm) + [Op(JUMPDEST)] && code == old(code) + [JUMPDEST]
    {
      hide GoodLabel;
      hide GoodLoop;
      hide GoodJump;
      NewLabel(code, asm);
      AssembleOne(Op(JUMPDEST));
      hide Assemble;
      pc := |code|;
      Emit([Op(JUMPDEST)]);
      labels := labels + [pc];
    }

    /** A cached label, drawn by one byte if there is any. */
    method RandomLabel() returns (dest: nat, ok: bool)
      requires Valid()
      modifies f
      ensures Valid() && ok == (labels != [])
      ensures ok ==> f.total == old(f.total) + 1
                     && dest == labels[Cyclic(f.data, old(f.total), 1)[0] % |labels|]
      ensures !ok ==> f.total == old(f.total)
    {
      hide GoodLabel;
      hide GoodLoop;
      hide GoodJump;
      hide Assemble;
      if |labels| == 0 {
        return 0, false;
      }
      var b := f.Byte();
      assert [b][0] == b;
      return labels[b % |labels|], true;
    }

    // -------------------------------------------------------------- control flow

    method JumpdestGenerator()
      requires Valid() && |code| < MAX_LEN
      modifies this`code, this`asm, this`labels
      ensures Valid() && labels == old(labels) + [|old(code)|] && asm == old(asm) + [Op(JUMPDEST)]
    {
      var _ := AddLabel();
    }

    /** Without a label one is emitted; otherwise a jump to a cached label, conditional on
        zero or on a drawn number in half of the cases. */
    method JumpGenerator() returns (ghost dest: Word, ghost condition: Word)
      requires Valid() && |code| < MAX_LEN
      modifies this`code, this`asm, this`labels, this`jumps, f
      ensures Valid()
      ensures old(labels) == [] ==> labels == [|old(code)|] && asm == old(asm) + [Op(JUMPDEST)] && jumps == old(jumps)
      ensures old(labels) != [] ==>
                && labels == old(labels) && dest in labels && condition < TWO_32
                && dest == labels[Drawn(f.data, old(f.total)) % |labels|]
                && asm == old(asm) + (if Drawn(f.data, old(f.total) + 1) > 127 then JumpInstrs(dest)
                                      else JumpIfInstrs(dest, condition))
                && (Drawn(f.data, old(f.total) + 1) <= 127 ==>
                      condition == if Drawn(f.data, old(f.total) + 2) > 127
                                   then BigEndian(Cyclic(f.data, old(f.total) + 3, 4)) else 0)
      ensures old(labels) != [] ==>
                jumps == old(jumps) + [EmittedJump(|old(code)|, dest, if Drawn(f.data, old(f.total) + 1) > 127 then None else Some(condition))]
      ensures f.total == old(f.total) + if old(labels) == [] then 0 else JumpCost(f.data, old(f.total))
    {
      hide Kept;
      hide Assemble;
      dest, condition := 0, 0;
      var d, ok := RandomLabel();
      if !ok {
        var _ := AddLabel();
        return;
      }
      LabelInRange(d);
      dest := d;
      var always := f.Bool();
      if always {
        EmitJump(EmittedJump(|code|, d, None));
      } else {
        var c := 0;
        var drawn := f.Bool();
        if drawn {
          c := f.Uint32();
        }
        condition := c;
        EmitJump(EmittedJump(|code|, d, Some(c)));
      }
    }

    /** Emits a jump to a cached label, and takes it down. */
    method EmitJump(j: EmittedJump)
      requires Valid() && j.dest in labels && j.at == |code|
      modifies this`code, this`asm, this`jumps
      ensures Valid() && jumps == old(jumps) + [j]
      ensures asm == old(asm) + JumpCode(j) && code == old(code) + Assemble(JumpCode(j))
    {
      hide GoodLabel;
      hide GoodLoop;
      hide Assemble;
      hide JumpCode;
      Emit(JumpCode(j));
      Appended(old(code), Assemble(JumpCode(j)));
      jumps := jumps + [j];
    }

    lemma LabelInRange(d: nat)
      requires Valid() && d in labels
      ensures d < MAX_LEN
    {
      hide ValidDest;
    }

    /** The same with the coin the other way and a condition of zero or one. */
    method LabelJumpGenerator() returns (ghost dest: Word, ghost condition: Word)
      requires Valid() && |code| < MAX_LEN
      modifies this`code, this`asm, this`labels, this`jumps, f
      ensures Valid()
      ensures old(labels) == [] ==> labels == [|old(code)|] && asm == old(asm) + [Op(JUMPDEST)] && jumps == old(jumps)
      ensures old(labels) != [] ==>
                && labels == old(labels) && dest in labels && condition <= 1
                && dest == labels[Drawn(f.data, old(f.total)) % |labels|]
                && asm == old(asm) + (if Drawn(f.data, old(f.total) + 1) > 127 then JumpIfInstrs(dest, condition)
                                      else JumpInstrs(dest))
                && (Drawn(f.data, old(f.total) + 1) > 127 ==>
                      condition == if Drawn(f.data, old(f.total) + 2) > 127 then 1 else 0)
      ensures old(labels) != [] ==>
                jumps == old(jumps) + [EmittedJump(|old(code)|, dest, if Drawn(f.data, old(f.total) + 1) > 127 then Some(condition) else None)]
      ensures f.total == old(f.total) + if old(labels) == [] then 0 else LabelJumpCost(f.data, old(f.total))
    {
      hide Kept;
      hide Assemble;
      dest, condition := 0, 0;
      var d, ok := RandomLabel();
      if !ok {
        var _ := AddLabel();
        return;
      }
      LabelInRange(d);
      dest := d;
      var maybe := f.Bool();
      if maybe {
        var c := 0;
        var taken := f.Bool();
        if taken {
          c := 1;
        }
        condition := c;
        EmitJump(EmittedJump(|code|, d, Some(c)));
      } else {
        EmitJump(EmittedJump(|code|, d, None));
      }
    }

    /** A loop of 1 to 16 iterations whose head is cached as a label. */
    method BoundedLoopGenerator() returns (ghost k: Word)
      requires Valid() && |code| < MAX_LEN - 64
      modifies this`code, this`asm, this`labels, this`loops, f
      ensures Valid() && f.total == old(f.total) + 1
      ensures loops == old(loops) + [Loop(|old(code)|, k)]
      ensures k == Cyclic(f.data, old(f.total), 1)[0] % 16 + 1
      ensures labels == old(labels) + [Head(|old(code)|, k)] && Head(|old(code)|, k) < WORD
      ensures asm == old(asm) + LoopInstrs(k, Head(|old(code)|, k))
      ensures Clean(asm) ==> Site(code, |old(code)|, k)
    {
      hide Kept;
      hide Assemble;
      hide InstrBytes;
      hide Clean;
      hide Site;
      hide LoopInstrs;
      hide Cyclic;
      var b := f.Byte();
      assert [b][0] == b;
      var iterations := b % 16 + 1;
      k := iterations;
      ghost var at := |code|;
      CodeIs();
      AssembleOne(Push(iterations));
      Emit([Push(iterations)]);
      ShortPush(iterations);
      var head := AddLabel();
      LoopBody(head);
      LoopParts(old(asm), k, head);
      HeadAt(at, k);
      CodeIs();
      RecordLoop(old(asm), at, k);
    }

    lemma CodeIs()
      requires Kept()
      ensures code == Assemble(asm)
    {
    }

    method LoopBody(head: Word)
      requires Valid()
      modifies this`code, this`asm
      ensures Valid() && asm == old(asm) + LoopTail(head)
    {
      hide Kept;
      hide Assemble;
      Emit([Op(GAS), Op(POP)]);
      Emit([Push(1)]);
      Emit([Op(SWAP1), Op(SUB)]);
      Emit([Op(DUP1)]);
      Emit([Push(head)]);
      Emit([Op(JUMPI)]);
      Emit([Op(POP)]);
      assert asm == old(asm) + LoopTail(head);
    }

    /** Takes down a loop that has just been emitted. */
    ghost method RecordLoop(before: seq<Instr>, at: nat, k: Word)
      requires Valid() && 1 <= k <= 16 && Head(at, k) < WORD
      requires at == |Assemble(before)| && asm == before + LoopInstrs(k, Head(at, k))
      modifies this`loops
      ensures Valid() && loops == old(loops) + [Loop(at, k)]
      ensures Clean(asm) ==> Site(code, at, k)
    {
      hide Assemble;
      hide GoodLabel;
      hide Clean;
      hide Site;
      hide LoopInstrs;
      hide Head;
      hide GoodLoop;
      hide GoodJump;
      if Clean(asm) {
        LoopSite(before, k, Head(at, k));
      }
      NewLoop(code, asm, at, k);
      loops := loops + [Loop(at, k)];
    }

    // -------------------------------------------------------------- raw opcodes

    /** One byte, whatever it is: the only way to emit a PUSH without its immediate. */
    method OpcodeGenerator() returns (ghost b: byte)
      requires Valid()
      modifies this`code, this`asm, f
      ensures Valid() && b == Cyclic(f.data, old(f.total), 1)[0] && f.total == old(f.total) + 1
      ensures asm == old(asm) + [Op(b)] && code == old(code) + [b]
    {
      hide Kept;
      hide Assemble;
      var op := f.Byte();
      assert [op][0] == op;
      b := op;
      AssembleOne(Op(op));
      BareOp(op);
      Emit([Op(op)]);
    }

    /** A jump into push data. */
    method InvalidJumpGenerator()
      requires Valid() && |code| < MAX_LEN
      modifies this`code, this`asm
      ensures Valid() && asm == old(asm) + InvalidJumpInstrs(|old(code)|)
    {
      hide Kept;
      hide Assemble;
      var at := |code|;
      Emit([Push(0x5b), Op(POP)]);
      Emit(JumpInstrs(Wrap(at + 1)));
      assert asm == old(asm) + InvalidJumpInstrs(at);
    }

    // -------------------------------------------------------------- the stack

    /** A quarter of the operands are random, the others boundary values. */
    method InterestingOperand() returns (v: Word)
      requires Valid()
      modifies f
      ensures Valid()
      ensures v == OperandAt(f.data, old(f.total))
      ensures f.total == old(f.total) + OperandCost(f.data, old(f.total))
    {
      hide Kept;
      hide Cyclic;
      hide BigEndian;
      hide Pow256;
      hide Wrap;
      SomeInteresting();
      hide INTERESTING;
      var b := f.Byte();
      assert [b][0] == b;
      if b < 64 {
        var x := f.Number(32);
        v := Wrap(x);
      } else {
        var c := f.Byte();
        assert [c][0] == c;
        v := INTERESTING[c % |INTERESTING|];
      }
    }

    method PushOperand() returns (ghost v: Word)
      requires Valid()
      modifies this`code, this`asm, this`stackHeight, f
      ensures Valid() && asm == old(asm) + [Push(v)] && stackHeight == old(stackHeight) + 1
      ensures v == OperandAt(f.data, old(f.total))
      ensures f.total == old(f.total) + OperandCost(f.data, old(f.total))
    {
      hide Kept;
      hide Assemble;
      hide OperandAt;
      hide OperandCost;
      var x := InterestingOperand();
      v := x;
      Emit([Push(x)]);
      stackHeight := stackHeight + 1;
    }

    /** Pushes until the modelled stack holds n items, and no more. */
    method EnsureStack(n: int) returns (ghost pushed: seq<Instr>)
      requires Valid()
      modifies this`code, this`asm, this`stackHeight, f
      ensures Valid() && asm == old(asm) + pushed && AllPushes(pushed)
      ensures stackHeight == (if old(stackHeight) < n then n else old(stackHeight))
      ensures |pushed| == stackHeight - old(stackHeight)
      ensures pushed == OperandPushes(f.data, old(f.total), |pushed|)
      ensures f.total == old(f.total) + OperandsCost(f.data, old(f.total), |pushed|)
    {
      hide Kept;
      hide Assemble;
      hide OperandAt;
      hide OperandCost;
      pushed := [];
      while stackHeight < n
        invariant pushed == OperandPushes(f.data, old(f.total), |pushed|)
        invariant f.total == old(f.total) + OperandsCost(f.data, old(f.total), |pushed|)
        invariant Valid() && asm == old(asm) + pushed && AllPushes(pushed)
        invariant stackHeight == old(stackHeight) + |pushed|
        invariant stackHeight <= n || pushed == []
        decreases n - stackHeight
      {
        ghost var v := PushOperand();
        pushed := pushed + [Push(v)];
      }
    }

    method ApplyStackDelta(pop: int, push: int)
      modifies this`stackHeight
      ensures stackHeight == if old(stackHeight) - pop + push < 0 then 0 else old(stackHeight) - pop + push
    {
      var h := stackHeight - pop + push;
      if h < 0 {
        h := 0;
      }
      stackHeight := h;
    }

    /** One operation with its operands: it never lacks one, whatever ran before. */
    method StackAwareGenerator() returns (ghost chunk: seq<Instr>)
      requires Valid()
      modifies this`code, this`asm, this`stackHeight, f
      ensures Valid() && asm == old(asm) + chunk && stackHeight == 1
      ensures Tracks(chunk, old(stackHeight), stackHeight)
      ensures var so := STACK_AWARE_OPS[Drawn(f.data, old(f.total)) % |STACK_AWARE_OPS|];
              && chunk == OperandPushes(f.data, old(f.total) + 1, so.pop) + [Op(so.op)]
              && f.total == old(f.total) + 1 + OperandsCost(f.data, old(f.total) + 1, so.pop)
    {
      hide Kept;
      hide Assemble;
      hide OperandPushes;
      hide OperandsCost;
      hide Cyclic;
      stackHeight := 0;
      var b := f.Byte();
      DrawnByte(f.data, old(f.total), b);
      hide Drawn;
      TableAgrees(b % |STACK_AWARE_OPS|);
      var so := STACK_AWARE_OPS[b % |STACK_AWARE_OPS|];
      hide STACK_AWARE_OPS;
      ghost var pushed := EnsureStack(so.pop);
      Emit([Op(so.op)]);
      ApplyStackDelta(so.pop, so.push);
      chunk := pushed + [Op(so.op)];
      PushesThenOp(pushed, so.op);
      TracksAnywhere(chunk, old(stackHeight), 1);
    }

    /** Draws one boundary case of the arithmetic. */
    method DrawEdge() returns (e: Edge)
      requires Valid()
      modifies f
      ensures Valid() && e == EdgeAt(f.data, old(f.total)) && f.total == old(f.total) + EdgeCost(f.data, old(f.total))
    {
      hide Kept;
      hide Cyclic;
      var b := f.Byte();
      assert [b][0] == b;
      match b % 9 {
        case 0 => e := Edge(ADDMOD, [MAX_WORD, MAX_WORD, 0]);
        case 1 => e := Edge(MULMOD, [MAX_WORD, MAX_WORD, 0]);
        case 2 => e := Edge(SDIV, [MIN_INT, MAX_WORD]);
        case 3 => e := Edge(SMOD, [MIN_INT, MAX_WORD]);
        case 4 => e := Edge(EXP, [0, 0]);
        case 5 => e := Edge(EXP, [2, MAX_WORD]);
        case 6 =>
          var wide := f.Bool();
          var c := f.Byte();
          e := Edge(if c % 3 == 1 then SHR else if c % 3 == 2 then SAR else SHL,
                    [if wide then 256 else 255, MIN_INT]);
        case 7 => e := Edge(SIGNEXTEND, [0, MAX_WORD]);
        case _ =>
          var past := f.Bool();
          e := Edge(BYTE, [if past then 32 else 31, MAX_WORD]);
      }
    }

    /** One boundary case of the arithmetic, with all its operands. */
    method ArithEdgeGenerator() returns (ghost chunk: seq<Instr>)
      requires Valid()
      modifies this`code, this`asm, this`stackHeight, f
      ensures Valid() && asm == old(asm) + chunk && stackHeight == old(stackHeight) + 1
      ensures chunk == EdgeInstrs(EdgeAt(f.data, old(f.total)))
      ensures f.total == old(f.total) + EdgeCost(f.data, old(f.total))
      ensures Tracks(chunk, old(stackHeight), stackHeight)
    {
      hide Kept;
      hide Cyclic;
      hide EdgeAt;
      hide EdgeCost;
      hide EdgeInstrs;
      hide Tracks;
      var e := DrawEdge();
      chunk := EdgeInstrs(e);
      EdgeTracks(f.data, old(f.total), stackHeight);
      Emit(EdgeInstrs(e));
      stackHeight := stackHeight + 1;
    }

    /** Draws the mode and the depth of a stack fill and cuts the depth to the budget. */
    method DrawDepth() returns (overflow: bool, depth: int)
      requires Valid()
      modifies f
      ensures Valid() && overflow == (Drawn(f.data, old(f.total)) < 32)
      ensures f.total == old(f.total) + FillDraws(f.data, old(f.total))
      ensures depth == FillDepth(f.data, old(f.total), if budget == null then None else Some(old(budget.left)))
    {
      hide Kept;
      hide Assemble;
      hide Cyclic;
      var b := f.Byte();
      assert [b][0] == b;
      overflow := b < 32;
      var c := f.Byte();
      assert [c][0] == c;
      depth := 1000 + (c as int) % 22;
      if overflow {
        var d := f.Byte();
        assert [d][0] == d;
        depth := 1024 + (d as int) % 16;
      }
      if budget != null {
        var maxDepth := GoDiv(budget.left - 8, 2);
        if depth > maxDepth {
          depth := maxDepth;
        }
      }
    }

    /** Fills the stack and drains it again, or fills it to die; within the byte budget. */
    method StackFillGenerator() returns (ghost chunk: seq<Instr>)
      requires Valid()
      modifies this`code, this`asm, this`stackHeight, f
      ensures Valid() && asm == old(asm) + chunk && f.total == old(f.total) + FillDraws(f.data, old(f.total))
      ensures var overflow := Drawn(f.data, old(f.total)) < 32;
              var depth := FillDepth(f.data, old(f.total), if budget == null then None else Some(old(budget.left)));
              && chunk == (if depth <= 0 then [] else StackFillInstrs(depth, overflow))
              && stackHeight == if depth > 0 && !overflow then 1 else old(stackHeight)
      ensures Tracks(chunk, old(stackHeight), stackHeight)
    {
      hide Kept;
      hide Assemble;
      hide FillDepth;
      hide Drawn;
      hide Tracks;
      var overflow, depth := DrawDepth();
      if depth <= 0 {
        chunk := [];
        TracksNothing(stackHeight);
        return;
      }
      FillTracks(depth, overflow, stackHeight);
      chunk := StackFillInstrs(depth, overflow);
      Emit([Op(PUSH0)]);
      EmitRepeated(Op(DUP1), depth);
      if overflow {
        assert asm == old(asm) + chunk;
        return;
      }
      EmitRepeated(Op(POP), depth);
      assert asm == old(asm) + chunk;
      stackHeight := 1;
    }

    method EmitRepeated(i: Instr, n: nat)
      requires Valid()
      modifies this`code, this`asm
      ensures Valid() && asm == old(asm) + Repeat(i, n)
    {
      hide Kept;
      hide Assemble;
      for k := 0 to n
        invariant Valid() && asm == old(asm) + Repeat(i, k)
      {
        Emit([i]);
        assert Repeat(i, k) + [i] == Repeat(i, k + 1);
      }
    }

    // -------------------------------------------------------------- create and call

    method Mstore(data: seq<byte>)
      requires Valid()
      modifies this`code, this`asm
      ensures Valid() && asm == old(asm) + MstoreInstrs(data, 0)
    {
      hide Kept;
      hide MstoreInstrs;
      hide MstoreWord;
      hide MstoreByte;
      hide Assemble;
      var idx := 0;
      while idx + 32 <= |data|
        invariant 0 <= idx <= |data|
        invariant Valid() && asm + MstoreInstrs(data, idx) == old(asm) + MstoreInstrs(data, 0)
      {
        WordFirst(asm, data, idx);
        Emit(MstoreWord(data, idx));
        idx := idx + 32;
      }
      while idx < |data|
        invariant 0 <= idx <= |data| < idx + 32
        invariant Valid() && asm + MstoreInstrs(data, idx) == old(asm) + MstoreInstrs(data, 0)
      {
        ByteFirst(asm, data, idx);
        Emit(MstoreByte(data, idx));
        idx := idx + 1;
      }
      NothingLeft(asm, data);
    }

    /** The init code, cut to what the budget affords. */
    method ClipInit(initCode: seq<byte>) returns (init: seq<byte>)
      ensures init == Clipped(initCode, budget)
    {
      init := initCode;
      if budget != null {
        var maxCode := GoDiv(budget.left, 4);
        if |init| > maxCode {
          if maxCode < 0 {
            maxCode := 0;
          }
          init := init[..maxCode];
        }
      }
    }

    /** Runs the affordable part of the init code as a constructor and calls the result. */
    method CreateAndCall(initCode: seq<byte>, isCreate2: bool, callOp: byte)
      requires Valid()
      modifies this`code, this`asm
      ensures Valid()
      ensures asm == old(asm) + CreateAndCallInstrs(old(Clipped(initCode, budget)), isCreate2, callOp)
    {
      hide *;
      var init := ClipInit(initCode);
      Mstore(init);
      EmitCreate(|init|, isCreate2);
      EmitCall(callOp);
      CreateAndCallParts(old(asm), init, isCreate2, callOp);
    }

    method EmitCreate(size: nat, isCreate2: bool)
      requires Valid()
      modifies this`code, this`asm
      ensures Valid() && asm == old(asm) + CreateInstrs(Wrap(size), isCreate2)
    {
      hide Kept;
      hide Assemble;
      var createOp := CREATE;
      if isCreate2 {
        Emit([Push(0)]);
        createOp := CREATE2;
      }
      Emit([Push(Wrap(size)), Push(0), Push(0), Op(createOp)]);
      assert asm == old(asm) + CreateInstrs(Wrap(size), isCreate2);
    }

    method EmitCall(callOp: byte)
      requires Valid()
      modifies this`code, this`asm
      ensures Valid() && asm == old(asm) + (CallOperands(callOp) + [Op(callOp)])
    {
      hide Kept;
      hide Assemble;
      hide CallOperands;
      Emit([Push(0), Push(0)]);
      Emit([Push(0), Push(0)]);
      var addrOffset := DUP5;
      if callOp == CALL || callOp == CALLCODE {
        Emit([Push(0)]);
        addrOffset := DUP6;
      }
      ghost var value := if TakesValue(callOp) then [Push(0)] else [];
      assert asm == old(asm) + [Push(0), Push(0)] + [Push(0), Push(0)] + value;
      Emit([Op(addrOffset)]);
      Emit([Op(GAS), Op(callOp)]);
      CallParts(old(asm), callOp);
    }
  }

  // ---------------------------------------------------------------- helpers

  /** The loop behind its head. */
  function LoopTail(head: Word): seq<Instr>
  {
    [Op(GAS), Op(POP), Push(1), Op(SWAP1), Op(SUB), Op(DUP1), Push(head), Op(JUMPI), Op(POP)]
  }

  lemma LoopParts(asm: seq<Instr>, k: Word, head: Word)
    ensures asm + [Push(k)] + [Op(JUMPDEST)] + LoopTail(head) == asm + LoopInstrs(k, head)
  {
  }

  lemma SomeInteresting()
    ensures |INTERESTING| == 10
  {
  }

  lemma NewLoop(code: seq<byte>, asm: seq<Instr>, at: nat, k: Word)
    requires 1 <= k <= 16 && (Clean(asm) ==> Site(code, at, k))
    ensures GoodLoop(code, asm, Loop(at, k))
  {
  }

  /** The part of the init code that the budget, if there is one, affords. */
  function Clipped(init: seq<byte>, budget: Budget?): seq<byte>
    reads budget
  {
    if budget == null then init else Clip(init, budget.left)
  }

  lemma CreateAndCallParts(asm: seq<Instr>, init: seq<byte>, isCreate2: bool, callOp: byte)
    ensures asm + MstoreInstrs(init, 0) + CreateInstrs(Wrap(|init|), isCreate2) + (CallOperands(callOp) + [Op(callOp)])
            == asm + CreateAndCallInstrs(init, isCreate2, callOp)
  {
    hide MstoreInstrs;
    hide CreateInstrs;
    hide CallOperands;
  }

  lemma CallParts(asm: seq<Instr>, callOp: byte)
    ensures var value := if TakesValue(callOp) then [Push(0)] else [];
            var dup := Op(if TakesValue(callOp) then DUP6 else DUP5);
            asm + [Push(0), Push(0)] + [Push(0), Push(0)] + value + [dup] + [Op(GAS), Op(callOp)]
            == asm + (CallOperands(callOp) + [Op(callOp)])
  {
  }

  lemma WordFirst(asm: seq<Instr>, data: seq<byte>, idx: nat)
    requires idx + 32 <= |data|
    ensures asm + MstoreInstrs(data, idx) == (asm + MstoreWord(data, idx)) + MstoreInstrs(data, idx + 32)
  {
    hide MstoreWord;
  }

  lemma ByteFirst(asm: seq<Instr>, data: seq<byte>, idx: nat)
    requires idx < |data| < idx + 32
    ensures asm + MstoreInstrs(data, idx) == (asm + MstoreByte(data, idx)) + MstoreInstrs(data, idx + 1)
  {
    hide MstoreByte;
  }

  lemma NothingLeft(asm: seq<Instr>, data: seq<byte>)
    ensures asm + MstoreInstrs(data, |data|) == asm
  {
  }

  lemma ShortPush(v: Word)
    requires v < 256
    ensures |InstrBytes(Push(v))| == 2
  {
  }

  lemma {:induction false} PushesFit(ins: seq<Instr>, h: int)
    requires AllPushes(ins) && h >= 0
    ensures AllStraight(ins) && Fits(ins, h) && After(ins, h) == h + |ins|
    decreases |ins|
  {
    if ins == [] {
    } else {
      PushesFit(ins[1..], h + 1);
      assert ins == [ins[0]] + ins[1..];
    }
  }

  lemma PushesThenOp(pushed: seq<Instr>, op: byte)
    requires AllPushes(pushed) && StraightLine(Op(op)) && Pops(op) == |pushed| && Pushes(op) == 1
    ensures Tracks(pushed + [Op(op)], 0, 1)
  {
    hide Pops;
    hide Pushes;
    hide Defined;
    forall h: int | h >= 0
      ensures Fits(pushed + [Op(op)], h) && After(pushed + [Op(op)], h) >= 1
    {
      PushesFit(pushed, h);
      FitsJoin(pushed, [Op(op)], h);
      assert [Op(op)][1..] == [];
    }
    PushesFit(pushed, 0);
  }

  lemma EdgeTracks(data: seq<byte>, t: nat, height: int)
    requires |data| > 0
    ensures Tracks(EdgeInstrs(EdgeAt(data, t)), height, height + 1)
  {
    EdgeArity(data, t);
    var e := EdgeAt(data, t);
    var pushed := PushReversed(e.operands);
    hide PushReversed;
    hide EdgeAt;
    hide Pops;
    hide Pushes;
    hide Defined;
    PushesFit(pushed, 0);
    forall h: int | h >= 0 && h >= height
      ensures Fits(EdgeInstrs(e), h) && After(EdgeInstrs(e), h) >= height + 1
    {
      PushesFit(pushed, h);
      FitsJoin(pushed, [Op(e.op)], h);
      assert [Op(e.op)][1..] == [];
    }
  }

  lemma EdgeArity(data: seq<byte>, t: nat)
    requires |data| > 0
    ensures var e := EdgeAt(data, t);
            |e.operands| == Pops(e.op) <= 3 && Pushes(e.op) == 1 && StraightLine(Op(e.op))
  {
  }

  lemma TracksNothing(height: int)
    ensures Tracks([], height, height)
  {
  }

  lemma FillTracks(depth: nat, overflow: bool, height: int)
    requires depth > 0
    ensures Tracks(StackFillInstrs(depth, overflow), height, if overflow then height else 1)
  {
    forall h: int | h >= 0 && h >= height
      ensures Fits(StackFillInstrs(depth, overflow), h)
      ensures After(StackFillInstrs(depth, overflow), h) >= if overflow then height else 1
    {
      hide *;
      FillHeight(depth, overflow, h);
    }
    hide Fits;
    hide After;
  }

  /** A fill needs nothing and leaves what it says. */
  lemma FillHeight(depth: nat, overflow: bool, h: nat)
    requires depth > 0
    ensures Fits(StackFillInstrs(depth, overflow), h)
    ensures After(StackFillInstrs(depth, overflow), h) == h + 1 + if overflow then depth else 0
  {
    var ups, downs := Repeat(Op(DUP1), depth), if overflow then [] else Repeat(Op(POP), depth);
    assert StackFillInstrs(depth, overflow) == [Op(PUSH0)] + (ups + downs);
    hide Repeat;
    hide StackFillInstrs;
    FillArities();
    hide Needs;
    hide Gives;
    FitsJoin([Op(PUSH0)], ups + downs, h);
    assert [Op(PUSH0)][1..] == [];
    RepeatHeight(Op(DUP1), depth, h + 1);
    FitsJoin(ups, downs, h + 1);
    if !overflow {
      RepeatHeight(Op(POP), depth, h + 1 + depth);
    }
  }

  lemma FillArities()
    ensures Needs(Op(PUSH0)) == 0 && Gives(Op(PUSH0)) == 1
    ensures Needs(Op(DUP1)) == 1 && Gives(Op(DUP1)) == 2
    ensures Needs(Op(POP)) == 1 && Gives(Op(POP)) == 0
  {
  }

  /** Clean code with a loop at its end holds a loop the machine can be run on. */
  lemma LoopSite(asm: seq<Instr>, k: Word, head: Word)
    requires head == Head(|Assemble(asm)|, k) && Clean(asm + LoopInstrs(k, head))
    ensures Site(Assemble(asm + LoopInstrs(k, head)), |Assemble(asm)|, k)
  {
    var before, code := Assemble(asm), Assemble(asm + LoopInstrs(k, head));
    AssembleJoin(asm, LoopInstrs(k, head));
    LoopAssembles(k, head);
    CleanPrefix(asm, LoopInstrs(k, head));
    CleanIsWhole(asm);
    hide Assemble;
    hide LoopBytes;
    hide InstrBytes;
    hide LoopInstrs;
    hide Clean;
    hide Boundary;
    hide Holds;
    Appended(before, LoopBytes(k, head));
  }

  lemma Appended(a: seq<byte>, b: seq<byte>)
    ensures Holds(a + b, |a|, b) && Boundary(a + b, 0, |a|) == Boundary(a, 0, |a|)
  {
    BoundaryOfPrefix(a, a + b, 0, |a|);
  }
}
