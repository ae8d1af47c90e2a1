/** Create-then-call on the machine: who is called, and what is left on the stack. */
module CreateCall {
  import opened Bytes
  import opened Evm
  import opened Assembler
  import opened Straight
  import opened BoundedLoop
  import opened Emission
  import opened Jumps

  predicate IsCall(op: byte)
  {
    op == CALL || op == CALLCODE || op == DELEGATECALL || op == STATICCALL
  }

  /** The number of operands below the address operand. */
  function Below(op: byte): nat
  {
    if TakesValue(op) then 5 else 4
  }

  // ---------------------------------------------------------------- the constructor

  /** Storing data needs nothing from the stack and leaves nothing on it. */
  lemma {:induction false} MstoreFits(data: seq<byte>, idx: nat, h: nat)
    requires idx <= |data|
    ensures AllStraight(MstoreInstrs(data, idx))
    ensures Fits(MstoreInstrs(data, idx), h) && After(MstoreInstrs(data, idx), h) == h
    decreases |data| - idx
  {
    hide Wrap;
    hide BigEndian;
    if idx + 32 <= |data| {
      ThreeFit(Wrap(BigEndian(data[idx..idx + 32])), idx % TWO_32, MSTORE, h);
      var w := MstoreWord(data, idx);
      MstoreFits(data, idx + 32, h);
      FitsJoin(w, MstoreInstrs(data, idx + 32), h);
    } else if idx < |data| {
      ThreeFit(data[idx], idx % TWO_32, MSTORE8, h);
      var w := MstoreByte(data, idx);
      MstoreFits(data, idx + 1, h);
      FitsJoin(w, MstoreInstrs(data, idx + 1), h);
    }
  }

  lemma ThreeFit(a: Word, b: Word, op: byte, h: nat)
    requires op == MSTORE || op == MSTORE8
    ensures var w := [Push(a), Push(b), Op(op)]; AllStraight(w) && Fits(w, h) && After(w, h) == h
  {
    var w := [Push(a), Push(b), Op(op)];
    assert w == [Push(a)] + ([Push(b)] + ([Op(op)] + []));
    FitsFirst(Push(a), [Push(b)] + ([Op(op)] + []), h);
    FitsFirst(Push(b), [Op(op)] + [], h + 1);
    FitsFirst(Op(op), [], h + 2);
  }

  lemma FitsFirst(i: Instr, rest: seq<Instr>, h: int)
    ensures Fits([i] + rest, h) == (Needs(i) <= h && Fits(rest, h - Needs(i) + Gives(i)))
    ensures After([i] + rest, h) == After(rest, h - Needs(i) + Gives(i))
  {
    assert ([i] + rest)[1..] == rest;
  }

  lemma CreateFits(size: Word, isCreate2: bool, h: nat)
    ensures AllStraight(CreateInstrs(size, isCreate2))
    ensures Fits(CreateInstrs(size, isCreate2), h) && After(CreateInstrs(size, isCreate2), h) == h + 1
  {
    var op := Op(if isCreate2 then CREATE2 else CREATE);
    var last := [Push(0)] + ([Push(0)] + ([op] + []));
    FitsFirst(op, [], h + if isCreate2 then 4 else 3);
    var h0 := if isCreate2 then h + 1 else h;
    FitsFirst(Push(size), last, h0);
    FitsFirst(Push(0), [Push(0)] + ([op] + []), h0 + 1);
    FitsFirst(Push(0), [op] + [], h0 + 2);
    if isCreate2 {
      FitsFirst(Push(0), [Push(size)] + last, h);
      assert CreateInstrs(size, isCreate2) == [Push(0)] + ([Push(size)] + last);
    } else {
      assert CreateInstrs(size, isCreate2) == [Push(size)] + last;
    }
  }

  function ConstructorInstrs(init: seq<byte>, isCreate2: bool): seq<Instr>
  {
    MstoreInstrs(init, 0) + CreateInstrs(Wrap(|init|), isCreate2)
  }

  lemma ConstructorFits(init: seq<byte>, isCreate2: bool, h: nat)
    ensures AllStraight(ConstructorInstrs(init, isCreate2))
    ensures Fits(ConstructorInstrs(init, isCreate2), h) && After(ConstructorInstrs(init, isCreate2), h) == h + 1
  {
    hide MstoreInstrs;
    hide CreateInstrs;
    hide StraightLine;
    hide Wrap;
    MstoreFits(init, 0, h);
    CreateFits(Wrap(|init|), isCreate2, h);
    FitsJoin(MstoreInstrs(init, 0), CreateInstrs(Wrap(|init|), isCreate2), h);
  }

  // ---------------------------------------------------------------- the operands

  /** Any push of a block, and the run behind it. */
  lemma {:induction false} ZerosRun(m: Machine, code: seq<byte>, st: State, n: nat)
    requires Holds(code, st.pc, Assemble(Repeat(Push(0), n)))
    ensures match RunUntil(m, code, st, st.pc + |Assemble(Repeat(Push(0), n))|)
            case Halted(why) => Excused(why)
            case Next(t) => t.pc == st.pc + |Assemble(Repeat(Push(0), n))| && t.stack == st.stack + Zeros(n)
    decreases n
  {
    hide Step;
    hide Assemble;
    hide InstrBytes;
    hide Holds;
    if n == 0 {
      AssembleNone();
    } else {
      var rest := Repeat(Push(0), n - 1);
      assert Repeat(Push(0), n) == [Push(0)] + rest;
      hide Repeat;
      FirstHolds(code, st.pc, Push(0), rest);
      StepPush(m, code, st, 0);
      RunUntilStep(m, code, st, st.pc + |Assemble(Repeat(Push(0), n))|);
      hide RunUntil;
      var r := Step(m, code, st);
      if r.Next? {
        ZerosRun(m, code, r.st, n - 1);
        assert st.stack + [0] + Zeros(n - 1) == st.stack + Zeros(n);
      }
    }
  }

  lemma DupAddress(m: Machine, code: seq<byte>, st: State, s: seq<Word>, a: Word, n: nat)
    requires 1 <= n <= 15 && OpAt(code, st.pc) == DUP1 + n && st.stack == s + [a] + Zeros(n)
    ensures var r := Step(m, code, st);
            match r case Halted(why) => Excused(why)
            case Next(t) => t.pc == st.pc + 1 && t.stack == s + [a] + Zeros(n) + [a]
  {
    var op := DUP1 + n;
    if |st.stack| < STACK_LIMIT && st.gas >= 3 {
      StepCore(m, code, st, op);
      hide Step;
      assert st.stack[|st.stack| - (n + 1)] == a;
    }
  }

  lemma GasOrHalt(m: Machine, code: seq<byte>, st: State)
    requires OpAt(code, st.pc) == GAS
    ensures match Step(m, code, st) case Halted(why) => Excused(why)
            case Next(t) => t.pc == st.pc + 1 && exists g: Word :: t.stack == st.stack + [g]
  {
    if |st.stack| < STACK_LIMIT && st.gas >= 2 {
      GasStep(m, code, st);
    }
    hide Execute;
  }

  function DupAndGas(callOp: byte): seq<Instr>
  {
    [Op(if TakesValue(callOp) then DUP6 else DUP5)] + [Op(GAS)]
  }

  lemma OperandsSplit(callOp: byte)
    ensures CallOperands(callOp) == Repeat(Push(0), Below(callOp)) + DupAndGas(callOp)
    ensures AllStraight(Repeat(Push(0), Below(callOp)))
    ensures forall h: nat :: Fits(Repeat(Push(0), Below(callOp)), h)
    ensures |Assemble(DupAndGas(callOp))| == 2
  {
    assert CallOperands(callOp)[..Below(callOp)] == Repeat(Push(0), Below(callOp));
    forall h: nat
      ensures Fits(Repeat(Push(0), Below(callOp)), h)
    {
      RepeatHeight(Push(0), Below(callOp), h);
    }
    AssemblePrepend(DupAndGas(callOp)[0], [Op(GAS)]);
    AssembleOne(Op(GAS));
    BareOp(GAS);
    BareOp(DUP5);
    BareOp(DUP6);
  }

  /** The stack that the call finds: the created address, zeros, the same address, the gas. */
  predicate CallReady(stack: seq<Word>, s: seq<Word>, a: Word, n: nat)
  {
    |stack| == |s| + n + 3 && stack[..|s| + n + 2] == s + [a] + Zeros(n) + [a]
  }

  lemma DupAndGasRun(m: Machine, code: seq<byte>, st: State, s: seq<Word>, a: Word, callOp: byte)
    requires Holds(code, st.pc, Assemble(DupAndGas(callOp))) && st.stack == s + [a] + Zeros(Below(callOp))
    ensures match RunUntil(m, code, st, st.pc + 2)
            case Halted(why) => Excused(why)
            case Next(t) => t.pc == st.pc + 2 && CallReady(t.stack, s, a, Below(callOp))
  {
    hide Step;
    hide Assemble;
    hide InstrBytes;
    hide Holds;
    hide OpAt;
    hide Zeros;
    var n := Below(callOp);
    var dup := DupAndGas(callOp)[0].b;
    FirstHolds(code, st.pc, Op(dup), [Op(GAS)]);
    OpHolds(code, st.pc, dup);
    DupAddress(m, code, st, s, a, n);
    RunUntilStep(m, code, st, st.pc + 2);
    var r := Step(m, code, st);
    if r.Next? {
      OneHolds(code, r.st.pc, GAS);
      GasOrHalt(m, code, r.st);
      RunUntilStep(m, code, r.st, st.pc + 2);
    }
  }

  lemma OperandsRun(m: Machine, code: seq<byte>, st: State, s: seq<Word>, a: Word, callOp: byte)
    requires Holds(code, st.pc, Assemble(CallOperands(callOp))) && st.stack == s + [a]
    ensures var stop := st.pc + |Assemble(CallOperands(callOp))|;
            match RunUntil(m, code, st, stop)
            case Halted(why) => Excused(why)
            case Next(t) => t.pc == stop && CallReady(t.stack, s, a, Below(callOp))
  {
    hide Assemble;
    hide Holds;
    hide RunUntil;
    hide Fits;
    hide AllStraight;
    hide CallReady;
    OperandsSplit(callOp);
    var n := Below(callOp);
    var zeros, tail := Repeat(Push(0), n), DupAndGas(callOp);
    hide CallOperands;
    hide DupAndGas;
    AssembleJoin(zeros, tail);
    HoldsSplit(code, st.pc, Assemble(zeros), Assemble(tail));
    ZerosRun(m, code, st, n);
    var stop := st.pc + |Assemble(CallOperands(callOp))|;
    RunUntilJoin(m, code, st, zeros, stop);
    var r := RunUntil(m, code, st, st.pc + |Assemble(zeros)|);
    if r.Next? {
      DupAndGasRun(m, code, r.st, s, a, callOp);
    }
  }

  // ---------------------------------------------------------------- the whole snippet

  /** The rest, from the state st behind the constructor to q before the call and on to the
      instruction behind it. */
  predicate Called(m: Machine, code: seq<byte>, st: State, q: Result, callOp: byte, end: nat)
    requires st.stack != [] && IsCall(callOp)
  {
    var address := st.stack[|st.stack| - 1];
    && (q.Halted? ==> Excused(q.why))
    && (q.Next? ==>
          && OpAt(code, q.st.pc) == callOp
          && |Operands(callOp, q.st.stack)| == Pops(callOp) >= 2
          && Operands(callOp, q.st.stack)[Pops(callOp) - 2] == address
          && (forall i :: 0 <= i < Pops(callOp) - 2 ==> Operands(callOp, q.st.stack)[i] == 0)
          && Returned(st, Step(m, code, q.st), end))
  }

  /** The call has left its flag on top of the created address. */
  predicate Returned(st: State, r: Result, end: nat)
  {
    && (r.Halted? ==> Excused(r.why))
    && (r.Next? ==> r.st.pc == end && |r.st.stack| == |st.stack| + 1 && r.st.stack[..|st.stack|] == st.stack)
  }

  /** Create-then-call with any of the four call instructions, at any place in any code:
      unless the frame ends for want of gas or room or by an instruction's own doing, the
      constructor leaves one item, the created address; the call finds that address as its
      second operand, with zeros for all others but the gas; and afterwards the stack holds exactly the two results more. */
  lemma CreatedIsCalled(m: Machine, code: seq<byte>, st: State, init: seq<byte>, isCreate2: bool, callOp: byte)
    requires IsCall(callOp) && Holds(code, st.pc, Assemble(CreateAndCallInstrs(init, isCreate2, callOp)))
    ensures var created := st.pc + |Assemble(ConstructorInstrs(init, isCreate2))|;
            var called := created + |Assemble(CallOperands(callOp))|;
            var r := RunUntil(m, code, st, created);
            && (r.Halted? ==> Excused(r.why))
            && (r.Next? ==> |r.st.stack| == |st.stack| + 1 && r.st.stack[..|st.stack|] == st.stack)
            && (r.Next? ==> RunUntil(m, code, st, called) == RunUntil(m, code, r.st, called))
            && (r.Next? ==> Called(m, code, r.st, RunUntil(m, code, r.st, called), callOp,
                                   st.pc + |Assemble(CreateAndCallInstrs(init, isCreate2, callOp))|))
  {
    hide *;
    Parts(code, st.pc, init, isCreate2, callOp);
    var ctor := ConstructorInstrs(init, isCreate2);
    ConstructorFits(init, isCreate2, 0);
    ConstructorFits(init, isCreate2, |st.stack|);
    BlockRuns(m, code, st, ctor, |st.stack|);
    var created := st.pc + |Assemble(ctor)|;
    var called := created + |Assemble(CallOperands(callOp))|;
    RunUntilJoin(m, code, st, ctor, called);
    var r := RunUntil(m, code, st, created);
    GoodRunMeans(st, r, |st.stack|, created, |st.stack| + 1);
    if r.Next? {
      var s, a := st.stack, r.st.stack[|st.stack|];
      assert r.st.stack == s + [a];
      OperandsRun(m, code, r.st, s, a, callOp);
      var q := RunUntil(m, code, r.st, called);
      var end := st.pc + |Assemble(CreateAndCallInstrs(init, isCreate2, callOp))|;
      CallAfter(m, code, r.st, q, s, a, callOp, end);
    }
  }

  lemma CallAfter(m: Machine, code: seq<byte>, st: State, q: Result, s: seq<Word>, a: Word, callOp: byte, end: nat)
    requires IsCall(callOp) && st.stack == s + [a]
    requires q.Halted? ==> Excused(q.why)
    requires q.Next? ==> OpAt(code, q.st.pc) == callOp && CallReady(q.st.stack, s, a, Below(callOp)) && end == q.st.pc + 1
    ensures Called(m, code, st, q, callOp, end)
  {
    hide Step;
    hide Excused;
    hide CallReady;
    hide OpAt;
    hide Operands;
    hide IsCall;
    if q.Next? {
      CallStep(m, code, q.st, s, a, callOp);
    }
  }

  lemma GoodRunMeans(st: State, r: Result, base: nat, stop: nat, height: int)
    requires base <= |st.stack| && GoodRun(st, r, base, stop, height)
    ensures r.Halted? ==> Excused(r.why)
    ensures r.Next? ==> r.st.pc == stop && |r.st.stack| == height && base <= height && r.st.stack[..base] == st.stack[..base]
  {
  }

  lemma Parts(code: seq<byte>, at: nat, init: seq<byte>, isCreate2: bool, callOp: byte)
    requires Holds(code, at, Assemble(CreateAndCallInstrs(init, isCreate2, callOp)))
    ensures var ctor := ConstructorInstrs(init, isCreate2);
            var created := at + |Assemble(ctor)|;
            var called := created + |Assemble(CallOperands(callOp))|;
            && Holds(code, at, Assemble(ctor)) && Holds(code, created, Assemble(CallOperands(callOp)))
            && Holds(code, called, InstrBytes(Op(callOp))) && OpAt(code, called) == callOp
            && called + 1 == at + |Assemble(CreateAndCallInstrs(init, isCreate2, callOp))|
  {
    hide *;
    var ctor, ops := ConstructorInstrs(init, isCreate2), CallOperands(callOp);
    AsThree(init, isCreate2, callOp);
    AssembleJoin(ctor, ops + [Op(callOp)]);
    AssembleJoin(ops, [Op(callOp)]);
    AssembleOne(Op(callOp));
    var whole, one := Assemble(CreateAndCallInstrs(init, isCreate2, callOp)), InstrBytes(Op(callOp));
    assert whole == Assemble(ctor) + (Assemble(ops) + one);
    HoldsSplit(code, at, Assemble(ctor), Assemble(ops) + one);
    HoldsSplit(code, at + |Assemble(ctor)|, Assemble(ops), one);
    OpHolds(code, at + |Assemble(ctor)| + |Assemble(ops)|, callOp);
  }

  lemma AsThree(init: seq<byte>, isCreate2: bool, callOp: byte)
    ensures CreateAndCallInstrs(init, isCreate2, callOp)
            == ConstructorInstrs(init, isCreate2) + (CallOperands(callOp) + [Op(callOp)])
  {
    hide MstoreInstrs;
    hide CreateInstrs;
    hide CallOperands;
    hide Wrap;
  }

  /** The call itself: it takes the address as its second operand and leaves its flag. */
  lemma CallStep(m: Machine, code: seq<byte>, st: State, s: seq<Word>, a: Word, callOp: byte)
    requires IsCall(callOp) && OpAt(code, st.pc) == callOp && CallReady(st.stack, s, a, Below(callOp))
    ensures |Operands(callOp, st.stack)| == Pops(callOp) >= 2 && Operands(callOp, st.stack)[Pops(callOp) - 2] == a
    ensures forall i :: 0 <= i < Pops(callOp) - 2 ==> Operands(callOp, st.stack)[i] == 0
    ensures match Step(m, code, st)
            case Halted(why) => Excused(why)
            case Next(v) => v.pc == st.pc + 1 && |v.stack| == |s| + 2 && v.stack[..|s| + 1] == s + [a]
  {
    hide Step;
    var n := Below(callOp);
    CallArity(callOp);
    var ready := s + [a] + Zeros(n) + [a];
    assert st.stack[..|s| + 1] == ready[..|s| + 1] == s + [a];
    assert st.stack[|s| + n + 1] == ready[|s| + n + 1] == a;
    var ops := Operands(callOp, st.stack);
    assert ops == st.stack[|s| + 1..];
    forall i | 0 <= i < n
      ensures ops[i] == 0
    {
      assert ops[i] == st.stack[..|s| + n + 2][|s| + 1 + i] == ready[|s| + 1 + i];
    }
    HostStep(m, code, st, callOp, |s| + 1);
  }

  lemma CallArity(callOp: byte)
    requires IsCall(callOp)
    ensures Pops(callOp) == Below(callOp) + 2 && Pushes(callOp) == 1
    ensures StraightLine(Op(callOp)) && !Core(callOp) && |InstrBytes(Op(callOp))| == 1
  {
  }
}
