/** The recursive generator: programs that deploy programs, on one byte budget. */
module Generator {
  import opened Bytes
  import opened Evm
  import opened Fill
  import opened Assembler
  import opened BoundedLoop
  import opened Emission
  import opened Draws
  import opened Strategies
  import Selection
  import opened Table
  import opened Programs
  import opened Rounds
  import opened Cost

  /** The programs still fit a machine's address space with this much to spare. */
  const ROOM: nat := 0x2000_0000_0000_0000

  /** How far a program on this level may leave the budget below zero: one strategy of m
      bytes too much, and 22 bytes for each level that can still be called. */
  function Floor(level: nat, m: nat): int
  {
    1 - m - 22 * if level >= MAX_RECURSION then 0 else MAX_RECURSION - level
  }

  // ---------------------------------------------------------------- one round

  /** Where the program under construction stands. */
  ghost function Now(env: Environment): Snap
    requires env.budget != null
    reads env, env.f, env.budget
  {
    Snap(env.f.total, env.asm, env.labels, env.loops, env.jumps, env.stackHeight, env.budget.left)
  }

  /** What a round may have done to the environment and the budget when it ends. */
  ghost predicate Round(was: Snap, env: Environment, level: nat, m: nat, chunk: seq<Instr>, sub: seq<Tree>)
    reads env, env.f, env.budget
  {
    && env.Valid() && env.budget != null
    && env.asm == was.asm + chunk
    && was.labels <= env.labels && was.loops <= env.loops && was.jumps <= env.jumps
    && env.budget.left == was.left - SizeAll(sub)
    && env.budget.left - |Assemble(chunk)| >= Floor(level, m)
    && Children(sub, level)
    && 18 * CountAll(sub) <= |Assemble(chunk)| + SizeAll(sub)
  }

  predicate Children(sub: seq<Tree>, level: nat)
  {
    && (sub != [] ==> level < MAX_RECURSION)
    && forall i :: 0 <= i < |sub| ==> Sound(sub[i]) && Within(sub[i], level + 1)
  }

  /** A strategy that spends no more than the largest one. */
  lemma SmallRound(was: Snap, env: Environment, level: nat, m: nat, chunk: seq<Instr>)
    requires env.Valid() && env.budget != null && env.asm == was.asm + chunk && was.labels <= env.labels && was.loops <= env.loops && was.jumps <= env.jumps
    requires env.budget.left == was.left >= 1 && m >= 363
    requires |chunk| <= 11 || |Assemble(chunk)| <= m
    ensures Round(was, env, level, m, chunk, [])
  {
    hide Environment.Kept;
    hide Assemble;
    if |chunk| <= 11 {
      AtMost33(chunk);
    }
  }

  /** What a round of the small strategies needs. */
  ghost predicate Ready(env: Environment, m: nat)
    reads env, env.f, env.budget
  {
    env.Valid() && env.budget != null && env.budget.left >= 1 && m >= 363 && |env.code| < MAX_LEN - 64
  }

  /** The length of the code, as the snapshot tells it. */
  lemma LenIs(env: Environment)
    requires env.Valid() && env.budget != null
    ensures Len(Now(env)) == |env.code|
  {
    env.CodeIs();
  }

  /** One byte, whatever it is. */
  method OpcodeRound(env: Environment, level: nat, ghost m: nat) returns (ghost chunk: seq<Instr>)
    requires Ready(env, m)
    modifies env, env.f
    ensures Round(old(Now(env)), env, level, m, chunk, []) && DidOpcode(env.f.data, old(Now(env)), Now(env), chunk)
  {
    hide Assemble;
    hide Environment.Kept;
    hide Cyclic;
    hide Drawn;
    hide Round;
    hide BigEndian;
    hide Tracks;
    hide Site;
    ghost var b := env.OpcodeGenerator();
    DrawnByte(env.f.data, old(env.f.total), b);
    chunk := [Op(b)];
    SmallRound(old(Now(env)), env, level, m, chunk);
  }

  /** A new label. */
  method JumpdestRound(env: Environment, level: nat, ghost m: nat) returns (ghost chunk: seq<Instr>)
    requires Ready(env, m)
    modifies env, env.f
    ensures Round(old(Now(env)), env, level, m, chunk, []) && DidJumpdest(old(Now(env)), Now(env), chunk)
  {
    hide Assemble;
    hide Environment.Kept;
    hide Cyclic;
    hide Drawn;
    hide Round;
    hide BigEndian;
    hide Tracks;
    hide Site;
    LenIs(env);
    env.JumpdestGenerator();
    chunk := [Op(JUMPDEST)];
    SmallRound(old(Now(env)), env, level, m, chunk);
  }

  /** A jump to a label, or a first label. */
  method JumpRound(env: Environment, level: nat, ghost m: nat) returns (ghost chunk: seq<Instr>)
    requires Ready(env, m)
    modifies env, env.f
    ensures Round(old(Now(env)), env, level, m, chunk, []) && DidJump(env.f.data, old(Now(env)), Now(env), chunk)
  {
    hide Assemble;
    hide Environment.Kept;
    hide Cyclic;
    hide Drawn;
    hide Round;
    hide BigEndian;
    hide Tracks;
    hide Site;
    hide Wrap;
    LenIs(env);
    ghost var d, c := env.JumpGenerator();
    chunk := JumpChunk(old(env.asm), env.asm, d, c);
    ConditionIs(env.f.data, old(env.f.total) + 3);
    SmallRound(old(Now(env)), env, level, m, chunk);
  }

  /** The same with the coin the other way. */
  method LabelJumpRound(env: Environment, level: nat, ghost m: nat) returns (ghost chunk: seq<Instr>)
    requires Ready(env, m)
    modifies env, env.f
    ensures Round(old(Now(env)), env, level, m, chunk, []) && DidLabelJump(env.f.data, old(Now(env)), Now(env), chunk)
  {
    hide Assemble;
    hide Environment.Kept;
    hide Cyclic;
    hide Drawn;
    hide Round;
    hide BigEndian;
    hide Tracks;
    hide Site;
    LenIs(env);
    ghost var d, c := env.LabelJumpGenerator();
    chunk := JumpChunk(old(env.asm), env.asm, d, c);
    SmallRound(old(Now(env)), env, level, m, chunk);
  }

  /** A loop. */
  method LoopRound(env: Environment, level: nat, ghost m: nat) returns (ghost chunk: seq<Instr>)
    requires Ready(env, m)
    modifies env, env.f
    ensures Round(old(Now(env)), env, level, m, chunk, []) && DidLoop(env.f.data, old(Now(env)), Now(env), chunk)
  {
    hide Assemble;
    hide Environment.Kept;
    hide Cyclic;
    hide Drawn;
    hide Round;
    hide BigEndian;
    hide Tracks;
    hide Site;
    hide LoopInstrs;
    hide Head;
    LenIs(env);
    ghost var k := env.BoundedLoopGenerator();
    DrawnIs(env.f.data, old(env.f.total));
    chunk := LoopInstrs(k, Head(Len(old(Now(env))), k));
    LoopCount(k, Head(Len(old(Now(env))), k));
    SmallRound(old(Now(env)), env, level, m, chunk);
  }

  /** A jump into push data. */
  method InvalidJumpRound(env: Environment, level: nat, ghost m: nat) returns (ghost chunk: seq<Instr>)
    requires Ready(env, m)
    modifies env, env.f
    ensures Round(old(Now(env)), env, level, m, chunk, []) && DidInvalidJump(old(Now(env)), Now(env), chunk)
  {
    hide Assemble;
    hide Environment.Kept;
    hide Cyclic;
    hide Drawn;
    hide Round;
    hide BigEndian;
    hide Tracks;
    hide Site;
    hide InvalidJumpInstrs;
    LenIs(env);
    env.InvalidJumpGenerator();
    chunk := InvalidJumpInstrs(Len(old(Now(env))));
    InvalidJumpCount(Len(old(Now(env))));
    SmallRound(old(Now(env)), env, level, m, chunk);
  }

  /** One operation with its operands. */
  method StackAwareRound(env: Environment, level: nat, ghost m: nat) returns (ghost chunk: seq<Instr>)
    requires Ready(env, m)
    modifies env, env.f
    ensures Round(old(Now(env)), env, level, m, chunk, []) && DidStackAware(env.f.data, old(Now(env)), Now(env), chunk)
  {
    hide Assemble;
    hide Environment.Kept;
    hide Cyclic;
    hide Drawn;
    hide Round;
    hide BigEndian;
    hide Tracks;
    hide Site;
    hide STACK_AWARE_OPS;
    hide OperandPushes;
    hide OperandsCost;
    chunk := env.StackAwareGenerator();
    OperandCount(Drawn(env.f.data, old(env.f.total)));
    SmallRound(old(Now(env)), env, level, m, chunk);
  }

  /** One boundary case. */
  method ArithEdgeRound(env: Environment, level: nat, ghost m: nat) returns (ghost chunk: seq<Instr>)
    requires Ready(env, m)
    modifies env, env.f
    ensures Round(old(Now(env)), env, level, m, chunk, []) && DidArithEdge(env.f.data, old(Now(env)), Now(env), chunk)
  {
    hide Assemble;
    hide Environment.Kept;
    hide Cyclic;
    hide Drawn;
    hide Round;
    hide BigEndian;
    hide Tracks;
    hide Site;
    hide EdgeAt;
    hide EdgeCost;
    hide EdgeInstrs;
    chunk := env.ArithEdgeGenerator();
    EdgeCount(env.f.data, old(env.f.total));
    SmallRound(old(Now(env)), env, level, m, chunk);
  }

  lemma DrawnIs(data: seq<byte>, t: nat)
    requires |data| > 0
    ensures Cyclic(data, t, 1)[0] == Drawn(data, t)
  {
  }

  /** A number of four bytes is a word as it stands. */
  lemma ConditionIs(data: seq<byte>, t: nat)
    requires |data| > 0
    ensures Wrap(BigEndian(Cyclic(data, t, 4))) == BigEndian(Cyclic(data, t, 4))
  {
    hide Cyclic;
    hide BigEndian;
    BigEndianBound(Cyclic(data, t, 4));
    PowersOf256();
  }

  lemma OperandCount(b: int)
    requires 0 <= b
    ensures STACK_AWARE_OPS[b % |STACK_AWARE_OPS|].pop <= 3
  {
  }

  lemma LoopCount(k: Word, head: Word)
    ensures |LoopInstrs(k, head)| == 11
  {
  }

  lemma InvalidJumpCount(at: nat)
    ensures |InvalidJumpInstrs(at)| == 4
  {
  }

  lemma EdgeCount(data: seq<byte>, t: nat)
    requires |data| > 0
    ensures |EdgeInstrs(EdgeAt(data, t))| <= 4
  {
    EdgeArity(data, t);
    hide EdgeAt;
  }

  /** What a jump strategy has appended. */
  ghost function JumpChunk(before: seq<Instr>, after: seq<Instr>, d: Word, c: Word): (chunk: seq<Instr>)
    requires after == before + [Op(JUMPDEST)] || after == before + JumpInstrs(d) || after == before + JumpIfInstrs(d, c)
    ensures after == before + chunk && |chunk| <= 3
  {
    after[|before|..]
  }

  method FillStack(env: Environment, level: nat, ghost m: nat) returns (ghost chunk: seq<Instr>)
    requires Ready(env, m)
    modifies env, env.f
    ensures Round(old(Now(env)), env, level, m, chunk, []) && DidStackFill(env.f.data, old(Now(env)), Now(env), chunk)
  {
    hide Assemble;
    hide Environment.Kept;
    hide Drawn;
    hide FillDepth;
    hide StackFillInstrs;
    hide Round;
    hide Tracks;
    hide FillDraws;
    ghost var left := env.budget.left;
    FillCost(env.f.data, env.f.total, left);
    chunk := env.StackFillGenerator();
    FillRound(old(Now(env)), env, level, m, chunk);
  }

  lemma FillRound(was: Snap, env: Environment, level: nat, m: nat, chunk: seq<Instr>)
    requires env.Valid() && env.budget != null && env.asm == was.asm + chunk && was.labels <= env.labels && was.loops <= env.loops && was.jumps <= env.jumps
    requires env.budget.left == was.left >= 1
    requires chunk == [] || |Assemble(chunk)| <= env.budget.left - 7
    ensures Round(was, env, level, m, chunk, [])
  {
    hide Environment.Kept;
    hide Assemble;
    AssembleNone();
  }

  /** Deploys and calls: the cost does not depend on how far below zero the budget is. */
  method Deploy(env: Environment, initCode: seq<byte>, isCreate2: bool, callOp: byte) returns (ghost chunk: seq<Instr>)
    requires env.Valid() && env.budget != null
    modifies env`code, env`asm
    ensures env.Valid() && env.asm == old(env.asm) + chunk
    ensures chunk == CreateAndCallInstrs(Clip(initCode, env.budget.left), isCreate2, callOp)
    ensures 18 <= |Assemble(chunk)|
    ensures env.budget.left - |Assemble(chunk)| >= if env.budget.left <= 0 then env.budget.left - 22 else -146
  {
    hide *;
    env.CreateAndCall(initCode, isCreate2, callOp);
    ClippedIs(initCode, env.budget);
    chunk := CreateAndCallInstrs(Clip(initCode, env.budget.left), isCreate2, callOp);
    CreateAndCallCost(initCode, env.budget.left, isCreate2, callOp);
  }

  lemma ClippedIs(init: seq<byte>, b: Budget)
    ensures Clipped(init, b) == Clip(init, b.left)
  {
  }

  /** Mostly a call operation, chosen by the second byte; else that byte itself. */
  method RandomCallOp(f: Filler) returns (op: byte)
    requires f.Valid()
    modifies f
    ensures f.Valid() && f.total == old(f.total) + 2
    ensures op == CallOpAt(f.data, old(f.total))
  {
    hide Cyclic;
    var b := f.Byte();
    assert [b][0] == b;
    var c := f.Byte();
    assert [c][0] == c;
    if b < 8 {
      op := c;
    } else {
      op := CALL_OPS[c % 4];
    }
  }

  /** A round that deploys something without generating it. */
  lemma DeployRound(was: Snap, env: Environment, level: nat, m: nat, chunk: seq<Instr>, cost: nat)
    requires env.Valid() && env.budget != null && env.asm == was.asm + chunk && was.labels <= env.labels && was.loops <= env.loops && was.jumps <= env.jumps
    requires env.budget.left == was.left >= 1 && m >= 363
    requires was.left - cost >= -146 && |Assemble(chunk)| <= cost + 132
    ensures Round(was, env, level, m, chunk, [])
  {
    hide Environment.Kept;
    hide Assemble;
  }

  /** What a slice of a drawn length is. */
  lemma SliceDrawn(data: seq<byte>, t: nat, s: seq<byte>)
    requires |data| > 0 && |s| < 256 && [|s|] + s == Cyclic(data, t, 1 + |s|)
    ensures Drawn(data, t) == |s| && s == Cyclic(data, t + 1, |s|)
  {
    CyclicJoin(data, t, 1, |s|);
    assert ([|s|] + s)[..1] == [|s|] && ([|s|] + s)[1..] == s;
    var a, b := Cyclic(data, t, 1), Cyclic(data, t + 1, |s|);
    assert (a + b)[..1] == a && (a + b)[1..] == b;
  }

  method CreateRandomRound(env: Environment, level: nat, ghost m: nat) returns (ghost chunk: seq<Instr>)
    requires Ready(env, m)
    modifies env, env.f
    ensures Round(old(Now(env)), env, level, m, chunk, []) && DidCreateRandom(env.f.data, old(Now(env)), Now(env), chunk)
  {
    hide Assemble;
    hide Environment.Kept;
    hide Cyclic;
    hide CreateAndCallInstrs;
    hide Clip;
    hide Round;
    var initCode := env.f.ByteSlice256();
    SliceDrawn(env.f.data, old(env.f.total), initCode);
    var isCreate2 := env.f.Bool();
    var callOp := RandomCallOp(env.f);
    chunk := Deploy(env, initCode, isCreate2, callOp);
    DeployRound(old(Now(env)), env, level, m, chunk, |Assemble(chunk)|);
  }

  method ReturnDataCopyRound(env: Environment, u: Unmodelled, level: nat, ghost m: nat) returns (ghost chunk: seq<Instr>)
    requires Ready(env, m)
    modifies env, env.f
    ensures Round(old(Now(env)), env, level, m, chunk, []) && DidReturnDataCopy(u, env.f.data, old(Now(env)), Now(env), chunk)
  {
    hide Assemble;
    hide Environment.Kept;
    hide Cyclic;
    hide CreateAndCallInstrs;
    hide Clip;
    hide Round;
    var runtime := ReturningCode();
    chunk := Deploy(env, u.wrap(runtime), false, STATICCALL);
    var length := env.f.Byte();
    DrawnByte(env.f.data, old(env.f.total), length);
    ghost var copy := [Push(length), Push(0), Push(0), Op(0x3e)];
    env.Emit([Push(length), Push(0), Push(0), Op(0x3e)]);
    AtMost33(copy);
    AssembleJoin(chunk, copy);
    ghost var cost := |Assemble(chunk)|;
    chunk := chunk + copy;
    DeployRound(old(Now(env)), env, level, m, chunk, cost);
  }

  method SelfDestructRound(env: Environment, level: nat, ghost m: nat) returns (ghost chunk: seq<Instr>)
    requires Ready(env, m)
    modifies env, env.f
    ensures Round(old(Now(env)), env, level, m, chunk, []) && DidSelfDestruct(env.f.data, old(Now(env)), Now(env), chunk)
  {
    hide Assemble;
    hide Environment.Kept;
    hide Cyclic;
    hide Round;
    hide BigEndian;
    hide Pow256;
    hide Wrap;
    hide CreateAndCallInstrs;
    hide Clip;
    var beneficiary := env.f.Number(32);
    chunk := Deploy(env, Assemble([Push(Wrap(beneficiary)), Op(0xff)]), false, CALL);
    DeployRound(old(Now(env)), env, level, m, chunk, |Assemble(chunk)|);
  }

  method PlainRound(env: Environment, u: Unmodelled, n: nat, level: nat, ghost m: nat) returns (ghost chunk: seq<Instr>)
    requires Ready(env, m) && u.Bounded(m)
    modifies env, env.f
    ensures Round(old(Now(env)), env, level, m, chunk, []) && DidPlain(u, n, env.f.data, old(Now(env)), Now(env), chunk)
  {
    hide Assemble;
    hide Environment.Kept;
    hide Cyclic;
    hide Round;
    var data, total := env.f.data, env.f.pointer;
    chunk := u.emit(n, data, total);
    env.Emit(u.emit(n, data, total));
    env.f.IncPointer(u.draw(n, data, total));
    SmallRound(old(Now(env)), env, level, m, chunk);
  }

  // ---------------------------------------------------------------- recursion

  function LevelsLeft(level: nat): nat
  {
    if level < MAX_RECURSION then MAX_RECURSION - level else 0
  }

  /** What is known of a generated program when its generation has returned. */
  predicate Grown(t: Tree, level: nat)
  {
    Sound(t) && Within(t, level) && 18 * (Count(t) - 1) <= Size(t)
  }

  /** A round that generates a program and deploys it. */
  lemma RecursiveRound(was: Snap, env: Environment, level: nat, m: nat, chunk: seq<Instr>, t: Tree)
    requires env.Valid() && env.budget != null && env.asm == was.asm + chunk && was.labels <= env.labels && was.loops <= env.loops && was.jumps <= env.jumps
    requires level < MAX_RECURSION && Grown(t, level + 1) && m >= 363
    requires env.budget.left == was.left - Size(t) && was.left >= 1
    requires env.budget.left >= was.left || env.budget.left >= Floor(level + 1, m)
    requires 18 <= |Assemble(chunk)|
    requires env.budget.left - |Assemble(chunk)| >= if env.budget.left <= 0 then env.budget.left - 22 else -146
    ensures Round(was, env, level, m, chunk, [t])
  {
    hide Environment.Kept;
    hide Assemble;
    AllOne(t);
    hide SizeAll;
    hide CountAll;
  }

  method MakeDeployInit(f: Filler, u: Unmodelled, runtime: seq<byte>) returns (init: seq<byte>)
    requires f.Valid()
    modifies f
    ensures f.Valid() && f.total == old(f.total) + 1
    ensures init == DeploymentAt(u, f.data, old(f.total), runtime)
  {
    hide Assemble;
    hide Cyclic;
    var b := f.Byte();
    assert [b][0] == b;
    match b % 8 {
      case 0 => init := Assemble([Push(0), Push(0), Op(0xfd)]);
      case 1 => init := u.wrap([0xef] + runtime);
      case _ => init := u.wrap(runtime);
    }
  }

  /** Generates a program from a part of the filler's data, one level deeper. */
  method Child(sel: Selection.Selector, u: Unmodelled, env: Environment, level: nat, ghost m: nat)
      returns (code: seq<byte>, ghost t: Tree)
    requires env.Valid() && env.budget != null && 1 <= env.budget.left <= ROOM && level < MAX_RECURSION
    requires sel.Valid() && sel.strats == Weights() + [Selection.FALLBACK] && u.Bounded(m) && 363 <= m <= ROOM
    modifies env.f, env.budget
    ensures env.Valid() && Grown(t, level + 1) && code == Assemble(t.asm)
    ensures env.f.total == SeedEnd(env.f.data, old(env.f.total))
    ensures Made(u, SeedAt(env.f.data, old(env.f.total)), 0, old(env.budget.left), level + 1, t)
    ensures env.budget.left == old(env.budget.left) - Size(t)
    ensures env.budget.left >= old(env.budget.left) || env.budget.left >= Floor(level + 1, m)
    decreases LevelsLeft(level), 0
  {
    hide Assemble;
    hide Environment.Kept;
    hide Cyclic;
    hide BigEndian;
    hide Grown;
    hide Made;
    hide SeedAt;
    hide SeedEnd;
    hide Size;
    hide Unmodelled.Bounded;
    hide Weights;
    hide Selection.Before;
    var seedLen := env.f.Uint16();
    var seed := env.f.ByteSlice(seedLen);
    SeedIs(env.f.data, old(env.f.total), seed);
    var filler := new Filler(seed);
    code, t := GenerateCode(sel, u, filler, level + 1, env.budget, m);
  }

  method CreateCallRound(sel: Selection.Selector, u: Unmodelled, env: Environment, level: nat, ghost m: nat)
      returns (ghost chunk: seq<Instr>, ghost sub: seq<Tree>)
    requires env.Valid() && env.budget != null && 1 <= env.budget.left <= ROOM
    requires sel.Valid() && sel.strats == Weights() + [Selection.FALLBACK] && u.Bounded(m) && 363 <= m <= ROOM
    modifies env, env.f, env.budget
    ensures Round(old(Now(env)), env, level, m, chunk, sub)
    ensures DidCreateCall(u, env.f.data, level, old(Now(env)), Now(env), chunk, sub)
    decreases LevelsLeft(level), 1
  {
    hide Assemble;
    hide Environment.Kept;
    hide Cyclic;
    hide Grown;
    hide Made;
    hide SeedAt;
    hide SeedEnd;
    hide Size;
    hide Drawn;
    hide DeploymentAt;
    hide CallOpAt;
    hide Unmodelled.Bounded;
    hide Round;
    hide CreateAndCallInstrs;
    hide Clip;
    hide Weights;
    hide Selection.Before;
    chunk, sub := [], [];
    if level >= MAX_RECURSION {
      NoRound(env, level, m);
      return;
    }
    ghost var t;
    var code;
    code, t := Child(sel, u, env, level, m);
    DrawnIs(env.f.data, env.f.total);
    var isCreate2 := env.f.Bool();
    var callOp := RandomCallOp(env.f);
    var init := MakeDeployInit(env.f, u, code);
    chunk := Deploy(env, init, isCreate2, callOp);
    sub := [t];
    RecursiveRound(old(Now(env)), env, level, m, chunk, t);
  }

  lemma NoRound(env: Environment, level: nat, m: nat)
    requires env.Valid() && env.budget != null && env.budget.left >= 1 && m >= 363
    ensures Round(Now(env), env, level, m, [], [])
  {
    SmallRound(Now(env), env, level, m, []);
  }

  method StaticContextRound(sel: Selection.Selector, u: Unmodelled, env: Environment, level: nat, ghost m: nat)
      returns (ghost chunk: seq<Instr>, ghost sub: seq<Tree>)
    requires env.Valid() && env.budget != null && 1 <= env.budget.left <= ROOM
    requires sel.Valid() && sel.strats == Weights() + [Selection.FALLBACK] && u.Bounded(m) && 363 <= m <= ROOM
    modifies env, env.f, env.budget
    ensures Round(old(Now(env)), env, level, m, chunk, sub)
    ensures DidStaticContext(u, env.f.data, level, old(Now(env)), Now(env), chunk, sub)
    decreases LevelsLeft(level), 1
  {
    hide Assemble;
    hide Environment.Kept;
    hide Cyclic;
    hide Grown;
    hide Made;
    hide SeedAt;
    hide SeedEnd;
    hide Size;
    hide Drawn;
    hide DeploymentAt;
    hide CallOpAt;
    hide Unmodelled.Bounded;
    hide Round;
    hide CreateAndCallInstrs;
    hide Clip;
    hide Weights;
    hide Selection.Before;
    chunk, sub := [], [];
    if level >= MAX_RECURSION {
      NoRound(env, level, m);
      return;
    }
    var write := Assemble(u.emit(WRITE_OP, env.f.data, env.f.pointer));
    env.f.IncPointer(u.draw(WRITE_OP, env.f.data, env.f.pointer));
    ghost var t;
    var code;
    code, t := Child(sel, u, env, level, m);
    chunk := Deploy(env, u.wrap(write + code), false, STATICCALL);
    sub := [t];
    RecursiveRound(old(Now(env)), env, level, m, chunk, t);
  }

  /** Executes one strategy. */
  method Execute(sel: Selection.Selector, u: Unmodelled, env: Environment, kind: Kind, level: nat, ghost m: nat)
      returns (ghost chunk: seq<Instr>, ghost sub: seq<Tree>)
    requires env.Valid() && env.budget != null && 1 <= env.budget.left <= ROOM && |env.code| < MAX_LEN - 64
    requires sel.Valid() && sel.strats == Weights() + [Selection.FALLBACK] && u.Bounded(m) && 363 <= m <= ROOM
    modifies env, env.f, env.budget
    ensures Round(old(Now(env)), env, level, m, chunk, sub)
    ensures Did(u, env.f.data, level, kind, old(Now(env)), Now(env), chunk, sub)
    decreases LevelsLeft(level), 2
  {
    hide Environment.Kept;
    hide Round;
    hide Assemble;
    hide DidOpcode;
    hide DidJumpdest;
    hide DidJump;
    hide DidLabelJump;
    hide DidLoop;
    hide DidInvalidJump;
    hide DidStackAware;
    hide DidArithEdge;
    hide DidStackFill;
    hide DidPlain;
    hide DidCreateRandom;
    hide DidReturnDataCopy;
    hide DidSelfDestruct;
    hide DidCreateCall;
    hide DidStaticContext;
    hide Weights;
    hide Unmodelled.Bounded;
    hide Selection.Selector.Valid;
    sub := [];
    match kind {
      case CreateCall => chunk, sub := CreateCallRound(sel, u, env, level, m);
      case StaticContext => chunk, sub := StaticContextRound(sel, u, env, level, m);
      case CreateRandom => chunk := CreateRandomRound(env, level, m);
      case ReturnDataCopy => chunk := ReturnDataCopyRound(env, u, level, m);
      case SelfDestruct => chunk := SelfDestructRound(env, level, m);
      case StackFill => chunk := FillStack(env, level, m);
      case Plain(n) => chunk := PlainRound(env, u, n, level, m);
      case Opcode => chunk := OpcodeRound(env, level, m);
      case Jumpdest => chunk := JumpdestRound(env, level, m);
      case Jump => chunk := JumpRound(env, level, m);
      case LabelJump => chunk := LabelJumpRound(env, level, m);
      case BoundedLoop => chunk := LoopRound(env, level, m);
      case InvalidJump => chunk := InvalidJumpRound(env, level, m);
      case StackAware => chunk := StackAwareRound(env, level, m);
      case ArithEdge => chunk := ArithEdgeRound(env, level, m);
    }
  }

  /** A program under construction, after some rounds: the budget has paid for its bytes
      and for all its sub-programs. */
  ghost predicate Progress(env: Environment, level: nat, m: nat, start: int, subs: seq<Tree>)
    reads env, env.f, env.budget
  {
    && env.Valid() && env.budget != null
    && env.budget.left == start - |env.code| - SizeAll(subs)
    && (env.budget.left >= start || env.budget.left >= Floor(level, m))
    && Children(subs, level)
    && 18 * CountAll(subs) <= |env.code| + SizeAll(subs)
  }

  /** One more round, with its own bytes charged. */
  lemma AfterRound(was: Snap, env: Environment, level: nat, m: nat, start: int, subs: seq<Tree>,
                   chunk: seq<Instr>, sub: seq<Tree>)
    requires env.Valid() && env.budget != null && env.asm == was.asm + chunk
    requires was.left == start - |Assemble(was.asm)| - SizeAll(subs)
    requires Children(subs, level) && 18 * CountAll(subs) <= |Assemble(was.asm)| + SizeAll(subs)
    requires Children(sub, level) && 18 * CountAll(sub) <= |Assemble(chunk)| + SizeAll(sub)
    requires env.budget.left == was.left - SizeAll(sub) - |Assemble(chunk)| >= Floor(level, m)
    ensures Progress(env, level, m, start, subs + sub)
  {
    hide GoodLabel;
    hide GoodLoop;
    hide GoodJump;
    hide Assemble;
    hide SizeAll;
    hide CountAll;
    hide Sound;
    hide Within;
    AssembleJoin(was.asm, chunk);
    AllJoin(subs, sub);
  }

  lemma StartProgress(env: Environment, level: nat, m: nat)
    requires env.Valid() && env.budget != null && env.code == []
    ensures Progress(env, level, m, env.budget.left, [])
  {
  }

  lemma ProgressMeans(env: Environment, level: nat, m: nat, start: int, subs: seq<Tree>)
    requires Progress(env, level, m, start, subs) && start <= ROOM && m <= ROOM
    ensures env.Valid() && env.budget != null && |env.code| < MAX_LEN - 64 && env.code == Assemble(env.asm)
    ensures env.budget.left <= ROOM
    ensures env.budget.left == start - |Assemble(env.asm)| - SizeAll(subs)
    ensures Children(subs, level) && 18 * CountAll(subs) <= |Assemble(env.asm)| + SizeAll(subs)
  {
    hide GoodLabel;
    hide GoodLoop;
    hide GoodJump;
    hide Assemble;
    hide SizeAll;
    hide CountAll;
  }

  lemma RoundMeans(was: Snap, env: Environment, level: nat, m: nat, chunk: seq<Instr>, sub: seq<Tree>)
    requires Round(was, env, level, m, chunk, sub)
    ensures env.Valid() && env.budget != null && env.asm == was.asm + chunk && env.code == Assemble(env.asm)
    ensures |Assemble(env.asm)| == |Assemble(was.asm)| + |Assemble(chunk)|
    ensures env.budget.left == was.left - SizeAll(sub) >= Floor(level, m) + |Assemble(chunk)|
    ensures Children(sub, level) && 18 * CountAll(sub) <= |Assemble(chunk)| + SizeAll(sub)
  {
    hide GoodLabel;
    hide GoodLoop;
    hide GoodJump;
    hide Assemble;
    hide SizeAll;
    hide CountAll;
    AssembleJoin(was.asm, chunk);
  }

  lemma Finished(env: Environment, level: nat, m: nat, start: int, subs: seq<Tree>, turns: seq<Turn>)
    requires Progress(env, level, m, start, subs)
    ensures var t := Node(env.asm, env.labels, env.loops, env.jumps, subs, turns);
            && Grown(t, level) && env.code == Assemble(env.asm) && env.budget.left == start - Size(t)
            && (env.budget.left >= start || env.budget.left >= Floor(level, m))
    ensures env.f.Valid()
  {
    hide GoodLabel;
    hide GoodLoop;
    hide GoodJump;
    hide Assemble;
    hide SizeAll;
    hide CountAll;
  }

  /** One turn of the loop: a strategy is selected and executed, and what the program has
      grown by is charged. */
  method OneRound(sel: Selection.Selector, u: Unmodelled, env: Environment, level: nat, prev: nat, ghost m: nat,
                  ghost start: int, ghost subs: seq<Tree>)
      returns (ghost r: Turn)
    requires sel.Valid() && sel.strats == Weights() + [Selection.FALLBACK]
    requires u.Bounded(m) && 363 <= m <= ROOM && start <= ROOM
    requires Progress(env, level, m, start, subs) && env.budget != null && env.budget.left > 0 && prev == |env.code|
    modifies env, env.f, env.budget
    ensures Progress(env, level, m, start, subs + r.sub)
    ensures env.f.Valid() && TurnIs(u, env.f.data, level, r) && r.start == old(Now(env)) && r.end == Now(env)
    decreases LevelsLeft(level), 3
  {
    hide Environment.Kept;
    hide Assemble;
    hide Cyclic;
    hide Round;
    hide Progress;
    hide Children;
    hide Weights;
    hide Selection.Hits;
    hide Selection.Selector.Valid;
    hide Unmodelled.Bounded;
    hide Did;
    hide TABLE;
    ProgressMeans(env, level, m, start, subs);
    var s, i := sel.Select(env.f);
    TableSize();
    WeightsPositive();
    ghost var was := Now(env);
    ghost var chunk, sub := Execute(sel, u, env, KindAt(i), level, m);
    ghost var done := Now(env);
    RoundMeans(was, env, level, m, chunk, sub);
    var grown := |env.code| - prev;
    env.budget.left := env.budget.left - grown;
    AfterRound(was, env, level, m, start, subs, chunk, sub);
    r := Turn(i, KindAt(i), chunk, sub, old(Now(env)), Now(env));
    assert r.start.(pos := r.start.pos + 2) == was;
    assert r.end.(left := r.end.left + |Assemble(chunk)|) == done;
  }

  lemma WeightsPositive()
    ensures Selection.Sum(Weights() + [Selection.FALLBACK]) > 0
  {
    TableIsExact(0);
  }

  /** Turns so far: chained from the blank program to where it stands now. */
  ghost predicate Told(u: Unmodelled, data: seq<byte>, level: nat, first: Snap, turns: seq<Turn>, now: Snap, subs: seq<Tree>)
    requires |data| > 0
  {
    && (forall i :: 0 <= i < |turns| ==> TurnIs(u, data, level, turns[i]))
    && Chained(first, turns) && StandsAt(first, turns, |turns|) == now && subs == SubsOf(turns)
  }

  lemma ToldMore(u: Unmodelled, data: seq<byte>, level: nat, first: Snap, turns: seq<Turn>, subs: seq<Tree>, r: Turn)
    requires |data| > 0 && Told(u, data, level, first, turns, r.start, subs) && TurnIs(u, data, level, r)
    ensures Told(u, data, level, first, turns + [r], r.end, subs + r.sub)
  {
    hide TurnIs;
    var all := turns + [r];
    assert all[..|all| - 1] == turns;
    forall i | 0 <= i < |all|
      ensures all[i].start == StandsAt(first, all, i)
    {
      assert i < |turns| ==> all[i] == turns[i] && StandsAt(first, all, i) == StandsAt(first, turns, i);
    }
  }

  lemma ToldMade(u: Unmodelled, data: seq<byte>, from: nat, left: int, level: nat, turns: seq<Turn>, now: Snap, subs: seq<Tree>)
    requires |data| > 0 && Told(u, data, level, Blank(from, left), turns, now, subs)
    requires |turns| == Drawn(data, from) || (|turns| < Drawn(data, from) && now.left <= 0)
    ensures Made(u, data, from, left, level, Node(now.asm, now.labels, now.loops, now.jumps, subs, turns))
  {
    hide TurnIs;
    hide Drawn;
  }

  /** Generates a program. It always returns; the budget pays for every byte of the whole
      tree, and falls below zero by no more than its floor. */
  method GenerateCode(sel: Selection.Selector, u: Unmodelled, f: Filler, level: nat, budget: Budget?, ghost m: nat)
      returns (code: seq<byte>, ghost t: Tree)
    requires sel.Valid() && sel.strats == Weights() + [Selection.FALLBACK] && f.Valid()
    requires u.Bounded(m) && 363 <= m <= ROOM && (budget != null ==> budget.left <= ROOM)
    modifies f, budget
    ensures f.Valid() && code == Assemble(t.asm) && Grown(t, level)
    ensures Made(u, f.data, old(f.total), old(if budget == null then MAX_TOTAL else budget.left), level, t)
    ensures budget != null ==>
              && budget.left == old(budget.left) - Size(t)
              && (budget.left >= old(budget.left) || budget.left >= Floor(level, m))
    ensures budget == null ==> Size(t) <= MAX_TOTAL - Floor(level, m)
    decreases LevelsLeft(level), 4
  {
    hide Environment.Kept;
    hide Assemble;
    hide Cyclic;
    hide Round;
    hide Weights;
    hide Selection.Hits;
    hide Progress;
    hide Told;
    hide Made;
    hide Grown;
    hide Drawn;
    var b := budget;
    if b == null {
      b := new Budget(MAX_TOTAL);
    }
    ghost var start := b.left;
    var env := new Environment(f, b);
    ghost var subs, turns := [], [];
    var counter := f.Byte();
    DrawnByte(f.data, old(f.total), counter);
    ghost var first := Blank(old(f.total), start);
    var prev := 0;
    StartProgress(env, level, m);
    NothingTold(u, f.data, level, first);
    for round := 0 to counter
      invariant fresh(env) && (budget == null ==> fresh(b)) && (budget != null ==> b == budget)
      invariant env.f == f && env.budget == b && f.Valid()
      invariant prev == |env.code| && Progress(env, level, m, start, subs)
      invariant |turns| == round && Told(u, f.data, level, first, turns, Now(env), subs)
    {
      if b.left <= 0 {
        break;
      }
      ghost var r := OneRound(sel, u, env, level, prev, m, start, subs);
      ToldMore(u, f.data, level, first, turns, subs, r);
      subs, turns := subs + r.sub, turns + [r];
      prev := |env.code|;
    }
    code := env.code;
    t := Node(env.asm, env.labels, env.loops, env.jumps, subs, turns);
    Finished(env, level, m, start, subs, turns);
    ToldMade(u, f.data, old(f.total), start, level, turns, Now(env), subs);
  }

  lemma NothingTold(u: Unmodelled, data: seq<byte>, level: nat, first: Snap)
    requires |data| > 0
    ensures Told(u, data, level, first, [], first, [])
  {
  }

  /** The budget of the whole tree: it is overdrawn by one strategy and 22 bytes a level. */
  method GenerateProgram(sel: Selection.Selector, u: Unmodelled, f: Filler, ghost m: nat)
      returns (code: seq<byte>, ghost t: Tree)
    requires sel.Valid() && sel.strats == Weights() + [Selection.FALLBACK] && f.Valid()
    requires u.Bounded(m) && 363 <= m <= ROOM
    modifies f
    ensures f.Valid() && code == Assemble(t.asm) && Grown(t, 0)
    ensures Made(u, f.data, old(f.total), MAX_TOTAL, 0, t)
    ensures Size(t) <= MAX_TOTAL - 1 + m + 22 * MAX_RECURSION
  {
    hide Assemble;
    hide Grown;
    hide Size;
    hide Made;
    hide Weights;
    hide Unmodelled.Bounded;
    hide Selection.Selector.Valid;
    var budget := new Budget(MAX_TOTAL);
    code, t := GenerateCode(sel, u, f, 0, budget, m);
  }

  // ---------------------------------------------------------------- consequences

  /** Whatever the filler, the number of sub-programs is bounded, and so is their nesting. */
  lemma FewPrograms(t: Tree, m: nat)
    requires Grown(t, 0) && Size(t) <= MAX_TOTAL - 1 + m + 22 * MAX_RECURSION
    ensures 18 * (Count(t) - 1) <= MAX_TOTAL - 1 + m + 22 * MAX_RECURSION
    ensures Height(t) <= MAX_RECURSION + 1
  {
    HeightBound(t, 0);
  }
}
