/** What each strategy makes of the draws, and what a generated program is: turn by turn. */
module Rounds {
  import opened Bytes
  import opened Evm
  import opened Fill
  import opened Assembler
  import opened BoundedLoop
  import opened Emission
  import opened Draws
  import opened Strategies
  import opened Jumps
  import Selection
  import opened Table
  import opened Programs

  /** The number under which the unmodelled part supplies the first operation of a static child. */
  const WRITE_OP: nat := 21

  /** What is not modelled of the strategies: what the plain ones draw from the filler and
      emit, and how runtime code is wrapped in a constructor. */
  datatype Unmodelled = Unmodelled(
    emit: (nat, seq<byte>, nat) -> seq<Instr>,
    draw: (nat, seq<byte>, nat) -> nat,
    wrap: seq<byte> -> seq<byte>)
  {
    /** No plain strategy appends more than m bytes in one go. */
    ghost predicate Bounded(m: nat)
    {
      forall n, data, total :: |Assemble(emit(n, data, total))| <= m
    }
  }

  // ---------------------------------------------------------------- the small strategies

  /** The length of the code so far. */
  function Len(a: Snap): nat
  {
    |Assemble(a.asm)|
  }

  /** After n draws and with the chunk emitted; all else as it was. */
  function Then(a: Snap, chunk: seq<Instr>, n: nat): Snap
  {
    a.(pos := a.pos + n, asm := a.asm + chunk)
  }

  predicate DidOpcode(data: seq<byte>, a: Snap, b: Snap, chunk: seq<Instr>)
    requires |data| > 0
  {
    chunk == [Op(Drawn(data, a.pos))] && b == Then(a, chunk, 1)
  }

  predicate DidJumpdest(a: Snap, b: Snap, chunk: seq<Instr>)
  {
    chunk == [Op(JUMPDEST)] && b == Then(a, chunk, 0).(labels := a.labels + [Len(a)])
  }

  /** A jump with this destination and condition has been emitted and noted. */
  predicate Jumped(a: Snap, b: Snap, chunk: seq<Instr>, dest: nat, condition: Option<Word>, n: nat)
  {
    && dest < WORD
    && var j := EmittedJump(Len(a), dest, condition);
       chunk == JumpCode(j) && b == Then(a, chunk, n).(jumps := a.jumps + [j])
  }

  predicate DidJump(data: seq<byte>, a: Snap, b: Snap, chunk: seq<Instr>)
    requires |data| > 0
  {
    if a.labels == [] then DidJumpdest(a, b, chunk)
    else
      Jumped(a, b, chunk, a.labels[Drawn(data, a.pos) % |a.labels|],
             if Drawn(data, a.pos + 1) > 127 then None
             else Some(if Drawn(data, a.pos + 2) > 127 then Wrap(BigEndian(Cyclic(data, a.pos + 3, 4))) else 0),
             JumpCost(data, a.pos))
  }

  predicate DidLabelJump(data: seq<byte>, a: Snap, b: Snap, chunk: seq<Instr>)
    requires |data| > 0
  {
    if a.labels == [] then DidJumpdest(a, b, chunk)
    else
      Jumped(a, b, chunk, a.labels[Drawn(data, a.pos) % |a.labels|],
             if Drawn(data, a.pos + 1) > 127 then Some(if Drawn(data, a.pos + 2) > 127 then 1 else 0) else None,
             LabelJumpCost(data, a.pos))
  }

  predicate DidLoop(data: seq<byte>, a: Snap, b: Snap, chunk: seq<Instr>)
    requires |data| > 0
  {
    var k := Drawn(data, a.pos) % 16 + 1;
    && Head(Len(a), k) < WORD && chunk == LoopInstrs(k, Head(Len(a), k))
    && b == Then(a, chunk, 1).(labels := a.labels + [Head(Len(a), k)], loops := a.loops + [Loop(Len(a), k)])
  }

  predicate DidInvalidJump(a: Snap, b: Snap, chunk: seq<Instr>)
  {
    chunk == InvalidJumpInstrs(Len(a)) && b == Then(a, chunk, 0)
  }

  predicate DidStackAware(data: seq<byte>, a: Snap, b: Snap, chunk: seq<Instr>)
    requires |data| > 0
  {
    var so := STACK_AWARE_OPS[Drawn(data, a.pos) % |STACK_AWARE_OPS|];
    && chunk == OperandPushes(data, a.pos + 1, so.pop) + [Op(so.op)]
    && b == Then(a, chunk, 1 + OperandsCost(data, a.pos + 1, so.pop)).(height := 1)
  }

  predicate DidArithEdge(data: seq<byte>, a: Snap, b: Snap, chunk: seq<Instr>)
    requires |data| > 0
  {
    chunk == EdgeInstrs(EdgeAt(data, a.pos)) && b == Then(a, chunk, EdgeCost(data, a.pos)).(height := a.height + 1)
  }

  predicate DidStackFill(data: seq<byte>, a: Snap, b: Snap, chunk: seq<Instr>)
    requires |data| > 0
  {
    var overflow, depth := Drawn(data, a.pos) < 32, FillDepth(data, a.pos, Some(a.left));
    && chunk == (if depth <= 0 then [] else StackFillInstrs(depth, overflow))
    && b == Then(a, chunk, FillDraws(data, a.pos)).(height := if depth > 0 && !overflow then 1 else a.height)
  }

  predicate DidPlain(u: Unmodelled, n: nat, data: seq<byte>, a: Snap, b: Snap, chunk: seq<Instr>)
    requires |data| > 0
  {
    chunk == u.emit(n, data, a.pos % |data|) && b == Then(a, chunk, u.draw(n, data, a.pos % |data|))
  }

  // ---------------------------------------------------------------- the deploying strategies

  const CALL_OPS: seq<byte> := [CALL, CALLCODE, DELEGATECALL, STATICCALL]

  /** The operation drawn by two bytes from position t on. */
  function CallOpAt(data: seq<byte>, t: nat): byte
    requires |data| > 0
  {
    if Drawn(data, t) < 8 then Drawn(data, t + 1) else CALL_OPS[Drawn(data, t + 1) % 4]
  }

  /** Unless the first byte is below 8 it is a call operation, and each of the four is for a
      quarter of the second bytes. */
  lemma CallOpExactly(data: seq<byte>, t: nat)
    requires |data| > 0 && Drawn(data, t) >= 8
    ensures CallOpAt(data, t) == CALL <==> Drawn(data, t + 1) % 4 == 0
    ensures CallOpAt(data, t) == CALLCODE <==> Drawn(data, t + 1) % 4 == 1
    ensures CallOpAt(data, t) == DELEGATECALL <==> Drawn(data, t + 1) % 4 == 2
    ensures CallOpAt(data, t) == STATICCALL <==> Drawn(data, t + 1) % 4 == 3
  {
    hide Drawn;
    assert CALL_OPS[0] == CALL && CALL_OPS[1] == CALLCODE && CALL_OPS[2] == DELEGATECALL && CALL_OPS[3] == STATICCALL;
  }

  predicate DidCreateRandom(data: seq<byte>, a: Snap, b: Snap, chunk: seq<Instr>)
    requires |data| > 0
  {
    var n := Drawn(data, a.pos);
    var p := a.pos + 1 + n;
    && chunk == CreateAndCallInstrs(Clip(Cyclic(data, a.pos + 1, n), a.left), Drawn(data, p) > 127, CallOpAt(data, p + 1))
    && b == Then(a, chunk, n + 4)
  }

  /** Runtime code that returns 32 bytes. */
  function ReturningCode(): seq<byte>
  {
    Assemble([Push(32), Push(0), Op(0xf3)])
  }

  /** It is PUSH1 32, PUSH1 0, RETURN. */
  lemma ReturningCodeIs()
    ensures ReturningCode() == [PUSH1, 32, PUSH1, 0, 0xf3]
  {
    hide InstrBytes;
    hide Assemble;
    AssemblePrepend(Push(32), [Push(0)] + [Op(0xf3)]);
    AssemblePrepend(Push(0), [Op(0xf3)]);
    AssembleOne(Op(0xf3));
    ShortBytes(32);
    ShortBytes(0);
    BareOp(0xf3);
    assert [Push(32), Push(0), Op(0xf3)] == [Push(32)] + ([Push(0)] + [Op(0xf3)]);
  }

  predicate DidReturnDataCopy(u: Unmodelled, data: seq<byte>, a: Snap, b: Snap, chunk: seq<Instr>)
    requires |data| > 0
  {
    && chunk == CreateAndCallInstrs(Clip(u.wrap(ReturningCode()), a.left), false, STATICCALL)
                + [Push(Drawn(data, a.pos)), Push(0), Push(0), Op(0x3e)]
    && b == Then(a, chunk, 1)
  }

  predicate DidSelfDestruct(data: seq<byte>, a: Snap, b: Snap, chunk: seq<Instr>)
    requires |data| > 0
  {
    var child := Assemble([Push(Wrap(BigEndian(Cyclic(data, a.pos, 32)))), Op(0xff)]);
    chunk == CreateAndCallInstrs(Clip(child, a.left), false, CALL) && b == Then(a, chunk, 32)
  }

  /** The constructor made of a runtime code, by the byte drawn at position t: a deployer of
      it, one of code with a forbidden first byte, or one that reverts. */
  function DeploymentAt(u: Unmodelled, data: seq<byte>, t: nat, runtime: seq<byte>): seq<byte>
    requires |data| > 0
  {
    var b := Drawn(data, t) % 8;
    if b == 0 then Assemble([Push(0), Push(0), Op(0xfd)])
    else if b == 1 then u.wrap([0xef] + runtime) else u.wrap(runtime)
  }

  /** Six bytes of eight deploy exactly the runtime code; the others a code the protocol
      forbids, or nothing, since the constructor reverts. */
  lemma DeploymentExactly(u: Unmodelled, data: seq<byte>, t: nat, runtime: seq<byte>)
    requires |data| > 0
    ensures Drawn(data, t) % 8 >= 2 ==> DeploymentAt(u, data, t, runtime) == u.wrap(runtime)
    ensures Drawn(data, t) % 8 == 1 ==> DeploymentAt(u, data, t, runtime) == u.wrap([0xef] + runtime)
    ensures Drawn(data, t) % 8 == 0 ==> DeploymentAt(u, data, t, runtime) == [PUSH1, 0, PUSH1, 0, 0xfd]
  {
    hide InstrBytes;
    hide Assemble;
    hide Drawn;
    AssemblePrepend(Push(0), [Push(0)] + [Op(0xfd)]);
    AssemblePrepend(Push(0), [Op(0xfd)]);
    AssembleOne(Op(0xfd));
    ShortBytes(0);
    BareOp(0xfd);
    assert [Push(0), Push(0), Op(0xfd)] == [Push(0)] + ([Push(0)] + [Op(0xfd)]);
  }

  /** The data of a child's own filler, drawn from position t on, and where that ends. */
  function SeedAt(data: seq<byte>, t: nat): (seed: seq<byte>)
    requires |data| > 0
    ensures |seed| > 0
  {
    var s := Cyclic(data, t + 2, BigEndian(Cyclic(data, t, 2)));
    if s == [] then [0] else s
  }

  lemma SeedIs(data: seq<byte>, t: nat, seed: seq<byte>)
    requires |data| > 0 && seed == Cyclic(data, t + 2, BigEndian(Cyclic(data, t, 2)))
    ensures SeedAt(data, t) == (if seed == [] then [0] else seed) && SeedEnd(data, t) == t + 2 + |seed|
  {
    hide Cyclic;
    hide BigEndian;
  }

  function SeedEnd(data: seq<byte>, t: nat): nat
    requires |data| > 0
  {
    t + 2 + BigEndian(Cyclic(data, t, 2))
  }

  /** A child generated from its own data and deployed: nothing on the last level. */
  predicate DidCreateCall(u: Unmodelled, data: seq<byte>, level: nat, a: Snap, b: Snap, chunk: seq<Instr>, sub: seq<Tree>)
    requires |data| > 0
    decreases sub, 2
  {
    if level >= MAX_RECURSION then chunk == [] && sub == [] && b == a
    else
      && |sub| == 1 && Made(u, SeedAt(data, a.pos), 0, a.left, level + 1, sub[0])
      && var q, left := SeedEnd(data, a.pos), a.left - Size(sub[0]);
         && chunk == CreateAndCallInstrs(Clip(DeploymentAt(u, data, q + 3, Assemble(sub[0].asm)), left),
                                         Drawn(data, q) > 127, CallOpAt(data, q + 1))
         && b == Then(a, chunk, q + 4 - a.pos).(left := left)
  }

  /** The same for a child that begins with a state-changing operation and is called
      statically. */
  predicate DidStaticContext(u: Unmodelled, data: seq<byte>, level: nat, a: Snap, b: Snap, chunk: seq<Instr>, sub: seq<Tree>)
    requires |data| > 0
    decreases sub, 2
  {
    if level >= MAX_RECURSION then chunk == [] && sub == [] && b == a
    else
      var t := a.pos + u.draw(WRITE_OP, data, a.pos % |data|);
      && |sub| == 1 && Made(u, SeedAt(data, t), 0, a.left, level + 1, sub[0])
      && var q, left := SeedEnd(data, t), a.left - Size(sub[0]);
         var write := Assemble(u.emit(WRITE_OP, data, a.pos % |data|));
         && chunk == CreateAndCallInstrs(Clip(u.wrap(write + Assemble(sub[0].asm)), left), false, STATICCALL)
         && b == Then(a, chunk, q - a.pos).(left := left)
  }

  // ---------------------------------------------------------------- a whole program

  /** The strategy of this kind, executed between a and b. */
  predicate Did(u: Unmodelled, data: seq<byte>, level: nat, kind: Kind, a: Snap, b: Snap, chunk: seq<Instr>, sub: seq<Tree>)
    requires |data| > 0
    decreases sub, 3
  {
    match kind
    case CreateCall => DidCreateCall(u, data, level, a, b, chunk, sub)
    case StaticContext => DidStaticContext(u, data, level, a, b, chunk, sub)
    case _ => sub == [] && DidAlone(u, data, kind, a, b, chunk)
  }

  predicate DidAlone(u: Unmodelled, data: seq<byte>, kind: Kind, a: Snap, b: Snap, chunk: seq<Instr>)
    requires |data| > 0
  {
    match kind
    case Opcode => DidOpcode(data, a, b, chunk)
    case CreateRandom => DidCreateRandom(data, a, b, chunk)
    case Jumpdest => DidJumpdest(a, b, chunk)
    case Jump => DidJump(data, a, b, chunk)
    case LabelJump => DidLabelJump(data, a, b, chunk)
    case BoundedLoop => DidLoop(data, a, b, chunk)
    case StackAware => DidStackAware(data, a, b, chunk)
    case ArithEdge => DidArithEdge(data, a, b, chunk)
    case ReturnDataCopy => DidReturnDataCopy(u, data, a, b, chunk)
    case SelfDestruct => DidSelfDestruct(data, a, b, chunk)
    case InvalidJump => DidInvalidJump(a, b, chunk)
    case StackFill => DidStackFill(data, a, b, chunk)
    case Plain(n) => DidPlain(u, n, data, a, b, chunk)
    case CreateCall => false
    case StaticContext => false
  }

  /** One turn: there was budget left, two bytes were drawn and chose the strategy, it was
      executed, and what it emitted was charged. */
  predicate TurnIs(u: Unmodelled, data: seq<byte>, level: nat, r: Turn)
    requires |data| > 0
    decreases r
  {
    && r.start.left > 0
    && r.index <= |TABLE| && r.kind == KindAt(r.index) && Chosen(data, r.start.pos, r.index)
    && Did(u, data, level, r.kind, r.start.(pos := r.start.pos + 2), r.end.(left := r.end.left + |Assemble(r.chunk)|),
           r.chunk, r.sub)
  }

  /** The two bytes at position t choose the strategy with this index. */
  predicate Chosen(data: seq<byte>, t: nat, index: nat)
    requires |data| > 0
  {
    var ss := Weights() + [Selection.FALLBACK];
    index < |ss| && Selection.Sum(ss) > 0 && Selection.Hits(ss, index, BigEndian(Cyclic(data, t, 2)))
  }

  /** Where a program stands before turn i, and at the end. */
  function StandsAt(first: Snap, turns: seq<Turn>, i: nat): Snap
    requires i <= |turns|
  {
    if i == 0 then first else turns[i - 1].end
  }

  function SubsOf(turns: seq<Turn>): seq<Tree>
  {
    if turns == [] then [] else SubsOf(turns[..|turns| - 1]) + turns[|turns| - 1].sub
  }

  /** Turn after turn, each from where the one before has ended. */
  predicate Chained(first: Snap, turns: seq<Turn>)
  {
    forall i :: 0 <= i < |turns| ==> turns[i].start == StandsAt(first, turns, i)
  }

  /** Where a program starts: behind the byte that counts its turns. */
  function Blank(from: nat, left: int): Snap
  {
    Snap(from + 1, [], [], [], [], 0, left)
  }

  /** The program that is generated from this data, read from a position on: as many turns as
      the first byte says, or until the budget is used up, each of them what its strategy
      makes of its draws. */
  predicate Made(u: Unmodelled, data: seq<byte>, from: nat, left: int, level: nat, t: Tree)
    requires |data| > 0
    decreases t
  {
    && (forall i :: 0 <= i < |t.turns| ==> TurnIs(u, data, level, t.turns[i]))
    && Chained(Blank(from, left), t.turns)
    && Ends(data, from, StandsAt(Blank(from, left), t.turns, |t.turns|), t)
  }

  predicate Ends(data: seq<byte>, from: nat, last: Snap, t: Tree)
    requires |data| > 0
  {
    && t.asm == last.asm && t.labels == last.labels && t.loops == last.loops && t.jumps == last.jumps
    && t.children == SubsOf(t.turns)
    && (|t.turns| == Drawn(data, from) || (|t.turns| < Drawn(data, from) && last.left <= 0))
  }

  // ---------------------------------------------------------------- consequences

  /** The chunks in order. */
  function Chunks(turns: seq<Turn>): seq<Instr>
  {
    if turns == [] then [] else Chunks(turns[..|turns| - 1]) + turns[|turns| - 1].chunk
  }

  /** Whatever the strategy, the chunk is appended to what was there. */
  lemma TurnAppends(u: Unmodelled, data: seq<byte>, level: nat, r: Turn)
    requires |data| > 0 && TurnIs(u, data, level, r)
    ensures r.end.asm == r.start.asm + r.chunk && r.end.pos >= r.start.pos + 2
    ensures r.end.left == r.start.left - SizeAll(r.sub) - |Assemble(r.chunk)|
  {
    hide Made;
    hide Assemble;
    hide Selection.Hits;
    hide Weights;
    hide Chosen;
    hide JumpCode;
    hide LoopInstrs;
    hide CreateAndCallInstrs;
    hide SeedAt;
    hide Size;
    hide OperandsCost;
    hide STACK_AWARE_OPS;
    hide TABLE;
    if r.kind == CreateCall || r.kind == StaticContext {
      DeployAppends(u, data, level, r);
    } else {
      assert r.sub == [];
      hide Did;
    }
  }

  lemma DeployAppends(u: Unmodelled, data: seq<byte>, level: nat, r: Turn)
    requires |data| > 0 && TurnIs(u, data, level, r) && (r.kind == CreateCall || r.kind == StaticContext)
    ensures r.end.asm == r.start.asm + r.chunk && r.end.pos >= r.start.pos + 2
    ensures r.end.left == r.start.left - SizeAll(r.sub) - |Assemble(r.chunk)|
  {
    hide Made;
    hide Assemble;
    hide Chosen;
    hide CreateAndCallInstrs;
    hide SeedAt;
    hide Size;
    hide TABLE;
    var a, b := r.start.(pos := r.start.pos + 2), r.end.(left := r.end.left + |Assemble(r.chunk)|);
    assert Did(u, data, level, r.kind, a, b, r.chunk, r.sub);
    hide TurnIs;
    if r.kind == CreateCall {
      CreateCallAppends(u, data, level, a, b, r.chunk, r.sub);
    } else {
      StaticAppends(u, data, level, a, b, r.chunk, r.sub);
    }
  }

  lemma CreateCallAppends(u: Unmodelled, data: seq<byte>, level: nat, a: Snap, b: Snap, chunk: seq<Instr>, sub: seq<Tree>)
    requires |data| > 0 && DidCreateCall(u, data, level, a, b, chunk, sub)
    ensures b.asm == a.asm + chunk && b.pos >= a.pos && b.left == a.left - SizeAll(sub)
  {
    hide Made;
    hide CreateAndCallInstrs;
    hide DeploymentAt;
    hide SeedAt;
    hide Size;
    if level >= MAX_RECURSION {
      assert a.asm + [] == a.asm;
    } else {
      AllOne(sub[0]);
      assert sub == [sub[0]];
    }
  }

  lemma StaticAppends(u: Unmodelled, data: seq<byte>, level: nat, a: Snap, b: Snap, chunk: seq<Instr>, sub: seq<Tree>)
    requires |data| > 0 && DidStaticContext(u, data, level, a, b, chunk, sub)
    ensures b.asm == a.asm + chunk && b.pos >= a.pos && b.left == a.left - SizeAll(sub)
  {
    hide Made;
    hide CreateAndCallInstrs;
    hide Assemble;
    hide SeedAt;
    hide Size;
    if level >= MAX_RECURSION {
      assert a.asm + [] == a.asm;
    } else {
      AllOne(sub[0]);
      assert sub == [sub[0]];
    }
  }

  /** The code of a generated program is the chunks of its turns, in order. */
  lemma MadeOfChunks(u: Unmodelled, data: seq<byte>, from: nat, left: int, level: nat, t: Tree)
    requires |data| > 0 && Made(u, data, from, left, level, t)
    ensures t.asm == Chunks(t.turns) && |t.turns| <= Drawn(data, from)
  {
    hide TurnIs;
    ChunksSoFar(u, data, Blank(from, left), level, t.turns, |t.turns|);
    assert t.turns[..|t.turns|] == t.turns;
  }

  lemma {:induction false} ChunksSoFar(u: Unmodelled, data: seq<byte>, first: Snap, level: nat, turns: seq<Turn>, i: nat)
    requires |data| > 0 && i <= |turns| && Chained(first, turns)
    requires forall j :: 0 <= j < |turns| ==> TurnIs(u, data, level, turns[j])
    ensures StandsAt(first, turns, i).asm == first.asm + Chunks(turns[..i])
  {
    hide TurnIs;
    hide Chunks;
    if i == 0 {
      NoChunks();
      assert turns[..0] == [];
      assert first.asm + [] == first.asm;
    } else {
      ChunksSoFar(u, data, first, level, turns, i - 1);
      TurnAppends(u, data, level, turns[i - 1]);
      ChunksNext(turns, i - 1);
      var a, b, c := first.asm, Chunks(turns[..i - 1]), turns[i - 1].chunk;
      assert a + b + c == a + (b + c);
      assert turns[i - 1].start == StandsAt(first, turns, i - 1);
    }
  }

  lemma NoChunks()
    ensures Chunks([]) == []
  {
  }

  lemma ChunksNext(turns: seq<Turn>, i: nat)
    requires i < |turns|
    ensures Chunks(turns[..i + 1]) == Chunks(turns[..i]) + turns[i].chunk
  {
    assert turns[..i + 1][..i] == turns[..i];
  }

  /** A program has no turns, and is empty, exactly if its counter is zero or there is no
      budget. */
  lemma EmptyExactly(u: Unmodelled, data: seq<byte>, from: nat, left: int, level: nat, t: Tree)
    requires |data| > 0 && Made(u, data, from, left, level, t)
    ensures t.turns == [] <==> Drawn(data, from) == 0 || left <= 0
    ensures t.turns == [] ==> t.asm == [] && t.children == []
  {
    hide Did;
    hide Chosen;
    hide Drawn;
    if t.turns != [] {
      assert t.turns[0].start == Blank(from, left);
      assert TurnIs(u, data, level, t.turns[0]);
    }
  }
}
