/** The deploying turns of a generated program, run on the machine: what the created contract
    is made of, by the draws. */
module Deployed {
  import opened Bytes
  import opened Evm
  import opened Fill
  import opened Assembler
  import opened Straight
  import opened Emission
  import opened Draws
  import opened Table
  import opened Programs
  import opened Rounds
  import opened CreateCall
  import opened InitCode

  /** The create instruction is reached by a run from st: it is CREATE2 or CREATE, the memory
      it reads is the affordable part of this init code, and the items below are left alone. */
  predicate Creates(code: seq<byte>, st: State, r: Result, init: seq<byte>, left: int, isCreate2: bool)
  {
    match r
    case Halted(why) => Excused(why)
    case Next(t) =>
      var n := |Clip(init, left)|;
      && OpAt(code, t.pc) == (if isCreate2 then CREATE2 else CREATE)
      && t.stack == st.stack + (if isCreate2 then [0] else []) + [n, 0, 0]
      && |t.world.memory| >= n && t.world.memory[..n] == Clip(init, left)
  }

  /** Where the create instruction stands. */
  function CreateAt(st: State, init: seq<byte>, left: int, isCreate2: bool): nat
  {
    st.pc + |Assemble(ConstructorInstrs(Clip(init, left), isCreate2))| - 1
  }

  lemma SnippetCreates(m: Machine, code: seq<byte>, st: State, init: seq<byte>, left: int, isCreate2: bool, callOp: byte)
    requires Stores(m) && left <= TWO_32
    requires Holds(code, st.pc, Assemble(CreateAndCallInstrs(Clip(init, left), isCreate2, callOp)))
    ensures Creates(code, st, RunUntil(m, code, st, CreateAt(st, init, left, isCreate2)), init, left, isCreate2)
  {
    hide *;
    ClipAffordable(init, left);
    Parts(code, st.pc, Clip(init, left), isCreate2, callOp);
    CreateSeesInitCode(m, code, st, Clip(init, left), isCreate2);
    CreatesMeans(m, code, st, init, left, isCreate2);
  }

  lemma ClipAffordable(init: seq<byte>, left: int)
    requires left <= TWO_32
    ensures |Clip(init, left)| <= TWO_32
  {
  }

  lemma CreatesMeans(m: Machine, code: seq<byte>, st: State, init: seq<byte>, left: int, isCreate2: bool)
    requires var c := Clip(init, left);
             var at := st.pc + |Assemble(ConstructorInstrs(c, isCreate2))| - 1;
             |c| <= TWO_32 && at >= st.pc
             && match RunUntil(m, code, st, at) case Halted(why) => Excused(why)
                case Next(t) =>
                  && t.pc == at && OpAt(code, at) == CreateOp(isCreate2)
                  && t.stack == st.stack + (if isCreate2 then [0] else []) + [|c|, 0, 0]
                  && |t.world.memory| >= |c| && t.world.memory[..|c|] == c
    ensures Creates(code, st, RunUntil(m, code, st, CreateAt(st, init, left, isCreate2)), init, left, isCreate2)
  {
    hide RunUntil;
    hide Clip;
    hide Assemble;
    hide ConstructorInstrs;
  }

  /** The end of a turn before its chunk is charged. */
  function AtEnd(r: Turn): Snap
  {
    r.end.(left := r.end.left + |Assemble(r.chunk)|)
  }

  lemma TurnCreateCall(u: Unmodelled, data: seq<byte>, level: nat, r: Turn)
    requires |data| > 0 && TurnIs(u, data, level, r) && r.kind == CreateCall
    ensures r.start.left > 0
    ensures DidCreateCall(u, data, level, r.start.(pos := r.start.pos + 2), AtEnd(r), r.chunk, r.sub)
  {
    hide DidCreateCall;
    hide Chosen;
    hide Assemble;
    assert Did(u, data, level, r.kind, r.start.(pos := r.start.pos + 2), AtEnd(r), r.chunk, r.sub);
  }

  lemma TurnStatic(u: Unmodelled, data: seq<byte>, level: nat, r: Turn)
    requires |data| > 0 && TurnIs(u, data, level, r) && r.kind == StaticContext
    ensures r.start.left > 0
    ensures DidStaticContext(u, data, level, r.start.(pos := r.start.pos + 2), AtEnd(r), r.chunk, r.sub)
  {
    hide DidStaticContext;
    hide Chosen;
    hide Assemble;
    assert Did(u, data, level, r.kind, r.start.(pos := r.start.pos + 2), AtEnd(r), r.chunk, r.sub);
  }

  lemma TurnCreateRandom(u: Unmodelled, data: seq<byte>, level: nat, r: Turn)
    requires |data| > 0 && TurnIs(u, data, level, r) && r.kind == CreateRandom
    ensures r.start.left > 0
    ensures DidCreateRandom(data, r.start.(pos := r.start.pos + 2), AtEnd(r), r.chunk)
  {
    hide DidCreateRandom;
    hide Chosen;
    hide Assemble;
    assert Did(u, data, level, r.kind, r.start.(pos := r.start.pos + 2), AtEnd(r), r.chunk, r.sub);
  }

  lemma CreateCallParts(u: Unmodelled, data: seq<byte>, level: nat, a: Snap, b: Snap, chunk: seq<Instr>, sub: seq<Tree>)
    requires |data| > 0 && DidCreateCall(u, data, level, a, b, chunk, sub) && level < MAX_RECURSION
    ensures |sub| == 1 && Made(u, SeedAt(data, a.pos), 0, a.left, level + 1, sub[0])
    ensures var q, left := SeedEnd(data, a.pos), a.left - Size(sub[0]);
            chunk == CreateAndCallInstrs(Clip(DeploymentAt(u, data, q + 3, Assemble(sub[0].asm)), left),
                                         Drawn(data, q) > 127, CallOpAt(data, q + 1))
  {
    hide Made;
    hide CreateAndCallInstrs;
    hide Clip;
    hide DeploymentAt;
    hide CallOpAt;
    hide SeedAt;
    hide SeedEnd;
    hide Size;
    hide Drawn;
    hide Assemble;
  }

  lemma StaticParts(u: Unmodelled, data: seq<byte>, level: nat, a: Snap, b: Snap, chunk: seq<Instr>, sub: seq<Tree>)
    requires |data| > 0 && DidStaticContext(u, data, level, a, b, chunk, sub) && level < MAX_RECURSION
    ensures |sub| == 1
    ensures var write := Assemble(u.emit(WRITE_OP, data, a.pos % |data|));
            chunk == CreateAndCallInstrs(Clip(u.wrap(write + Assemble(sub[0].asm)), a.left - Size(sub[0])), false, STATICCALL)
  {
    hide Made;
    hide CreateAndCallInstrs;
    hide Clip;
    hide SeedAt;
    hide SeedEnd;
    hide Size;
    hide Assemble;
  }

  lemma CreateRandomParts(data: seq<byte>, a: Snap, b: Snap, chunk: seq<Instr>)
    requires |data| > 0 && DidCreateRandom(data, a, b, chunk)
    ensures var n := Drawn(data, a.pos);
            chunk == CreateAndCallInstrs(Clip(Cyclic(data, a.pos + 1, n), a.left), Drawn(data, a.pos + 1 + n) > 127,
                                         CallOpAt(data, a.pos + 1 + n + 1))
  {
    hide CreateAndCallInstrs;
    hide Clip;
    hide Cyclic;
    hide CallOpAt;
    hide Drawn;
  }

  /** A generated program is deployed: the init code in memory is the constructor that the
      draws make of exactly the code of the sub-program, which itself is generated from the
      seed that was drawn, cut to what the sub-program has left of the budget. */
  lemma CreateCallDeploys(u: Unmodelled, data: seq<byte>, level: nat, r: Turn, m: Machine, code: seq<byte>, st: State)
    requires |data| > 0 && TurnIs(u, data, level, r) && r.kind == CreateCall && level < MAX_RECURSION
    requires Stores(m) && r.start.left <= TWO_32 && Holds(code, st.pc, Assemble(r.chunk))
    ensures |r.sub| == 1
    ensures var p := r.start.pos + 2;
            var q, left := SeedEnd(data, p), r.start.left - Size(r.sub[0]);
            var init := DeploymentAt(u, data, q + 3, Assemble(r.sub[0].asm));
            && Made(u, SeedAt(data, p), 0, r.start.left, level + 1, r.sub[0])
            && Creates(code, st, RunUntil(m, code, st, CreateAt(st, init, left, Drawn(data, q) > 127)),
                       init, left, Drawn(data, q) > 127)
  {
    hide *;
    var a := r.start.(pos := r.start.pos + 2);
    TurnCreateCall(u, data, level, r);
    CreateCallParts(u, data, level, a, AtEnd(r), r.chunk, r.sub);
    var q, left := SeedEnd(data, a.pos), a.left - Size(r.sub[0]);
    SnippetCreates(m, code, st, DeploymentAt(u, data, q + 3, Assemble(r.sub[0].asm)), left,
                   Drawn(data, q) > 127, CallOpAt(data, q + 1));
  }

  /** A child that is called statically is deployed with its first operation in front. */
  lemma StaticContextDeploys(u: Unmodelled, data: seq<byte>, level: nat, r: Turn, m: Machine, code: seq<byte>, st: State)
    requires |data| > 0 && TurnIs(u, data, level, r) && r.kind == StaticContext && level < MAX_RECURSION
    requires Stores(m) && r.start.left <= TWO_32 && Holds(code, st.pc, Assemble(r.chunk))
    ensures |r.sub| == 1
    ensures var p := r.start.pos + 2;
            var left := r.start.left - Size(r.sub[0]);
            var init := u.wrap(Assemble(u.emit(WRITE_OP, data, p % |data|)) + Assemble(r.sub[0].asm));
            Creates(code, st, RunUntil(m, code, st, CreateAt(st, init, left, false)), init, left, false)
  {
    hide *;
    var a := r.start.(pos := r.start.pos + 2);
    TurnStatic(u, data, level, r);
    StaticParts(u, data, level, a, AtEnd(r), r.chunk, r.sub);
    var left := a.left - Size(r.sub[0]);
    SnippetCreates(m, code, st, u.wrap(Assemble(u.emit(WRITE_OP, data, a.pos % |data|)) + Assemble(r.sub[0].asm)), left,
                   false, STATICCALL);
  }

  /** Random init code: the drawn bytes as they are. */
  lemma CreateRandomDeploys(u: Unmodelled, data: seq<byte>, level: nat, r: Turn, m: Machine, code: seq<byte>, st: State)
    requires |data| > 0 && TurnIs(u, data, level, r) && r.kind == CreateRandom
    requires Stores(m) && r.start.left <= TWO_32 && Holds(code, st.pc, Assemble(r.chunk))
    ensures var p, n := r.start.pos + 2, Drawn(data, r.start.pos + 2);
            var init, isCreate2 := Cyclic(data, p + 1, n), Drawn(data, p + 1 + n) > 127;
            Creates(code, st, RunUntil(m, code, st, CreateAt(st, init, r.start.left, isCreate2)), init, r.start.left, isCreate2)
  {
    hide *;
    var a := r.start.(pos := r.start.pos + 2);
    TurnCreateRandom(u, data, level, r);
    CreateRandomParts(data, a, AtEnd(r), r.chunk);
    var n := Drawn(data, a.pos);
    SnippetCreates(m, code, st, Cyclic(data, a.pos + 1, n), a.left, Drawn(data, a.pos + 1 + n) > 127,
                   CallOpAt(data, a.pos + 1 + n + 1));
  }
}
