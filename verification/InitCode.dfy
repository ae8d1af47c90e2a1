/** What the constructor of a create-then-call finds in memory. */
module InitCode {
  import opened Bytes
  import opened Evm
  import opened Prefix
  import opened Assembler
  import opened Straight
  import opened BoundedLoop
  import opened Emission
  import opened Jumps
  import opened CreateCall

  /** Memory `after` is memory `before` with bs written at `at`, and possibly longer. */
  predicate Written(before: seq<byte>, after: seq<byte>, at: nat, bs: seq<byte>)
  {
    && |before| <= |after| && at + |bs| <= |after|
    && after[at..at + |bs|] == bs
    && forall i :: 0 <= i < |before| && (i < at || at + |bs| <= i) ==> after[i] == before[i]
  }

  /** The store instructions of the host do what Appendix H.2 says of them, or end the frame. */
  ghost predicate Stores(m: Machine)
  {
    && (forall v: Word, at: Word, gas, w ::
          m.host(MSTORE, [v, at], gas, w).HostGo? ==>
            Written(w.memory, m.host(MSTORE, [v, at], gas, w).world.memory, at, ToBigEndian(v, 32)))
    && (forall v: Word, at: Word, gas, w ::
          m.host(MSTORE8, [v, at], gas, w).HostGo? ==>
            Written(w.memory, m.host(MSTORE8, [v, at], gas, w).world.memory, at, [v % 256]))
  }

  /** The first n bytes of the data are in memory. */
  predicate InMemory(w: World, data: seq<byte>, n: nat)
    requires n <= |data|
  {
    n <= |w.memory| && w.memory[..n] == data[..n]
  }

  lemma StoreStep(m: Machine, code: seq<byte>, st: State, op: byte, s: seq<Word>, v: Word, at: Word)
    requires OpAt(code, st.pc) == op && (op == MSTORE || op == MSTORE8) && st.stack == s + [v, at]
    ensures var r := Step(m, code, st);
            match r case Halted(why) => Excused(why)
            case Next(t) =>
              t.pc == st.pc + 1 && t.stack == s
              && m.host(op, [v, at], st.gas, st.world).HostGo? && t.world == m.host(op, [v, at], st.gas, st.world).world
  {
    assert Operands(op, st.stack) == [v, at];
    assert st.stack[..|s|] == s;
  }

  /** Two pushes and a store. */
  lemma StoreRuns(m: Machine, code: seq<byte>, st: State, v: Word, at: Word, op: byte)
    requires (op == MSTORE || op == MSTORE8) && Holds(code, st.pc, Assemble([Push(v), Push(at), Op(op)]))
    ensures var stop := st.pc + |Assemble([Push(v), Push(at), Op(op)])|;
            match RunUntil(m, code, st, stop) case Halted(why) => Excused(why)
            case Next(t) =>
              t.pc == stop && t.stack == st.stack
              && exists gas: nat :: m.host(op, [v, at], gas, st.world).HostGo?
                                    && t.world == m.host(op, [v, at], gas, st.world).world
  {
    hide Step;
    hide Assemble;
    hide InstrBytes;
    hide Holds;
    hide OpAt;
    var one, two := [Op(op)], [Push(at)] + [Op(op)];
    assert [Push(v), Push(at), Op(op)] == [Push(v)] + two;
    FirstHolds(code, st.pc, Push(v), two);
    FirstHolds(code, st.pc + |InstrBytes(Push(v))|, Push(at), one);
    var stop := st.pc + |Assemble([Push(v), Push(at), Op(op)])|;
    StepPush(m, code, st, v);
    RunUntilStep(m, code, st, stop);
    var r := Step(m, code, st);
    if r.Next? {
      StepPush(m, code, r.st, at);
      RunUntilStep(m, code, r.st, stop);
      var q := Step(m, code, r.st);
      if q.Next? {
        assert q.st.stack == st.stack + [v, at];
        OneHolds(code, q.st.pc, op);
        StoreStep(m, code, q.st, op, st.stack, v, at);
        RunUntilStep(m, code, q.st, stop);
      }
    }
  }

  lemma WordIsData(data: seq<byte>, idx: nat)
    requires idx + 32 <= |data|
    ensures ToBigEndian(Wrap(BigEndian(data[idx..idx + 32])), 32) == data[idx..idx + 32]
  {
    hide *;
    var s := data[idx..idx + 32];
    BigEndianBound(s);
    PowerOfWord();
    WriteAfterRead(s);
    WrapSmall(BigEndian(s));
  }

  lemma WrapSmall(x: nat)
    requires x < WORD
    ensures Wrap(x) == x
  {
  }

  lemma WrittenNext(w: World, w': World, data: seq<byte>, idx: nat, n: nat)
    requires idx + n <= |data| && InMemory(w, data, idx) && Written(w.memory, w'.memory, idx, data[idx..idx + n])
    ensures InMemory(w', data, idx + n)
  {
    var a, b := w'.memory[..idx + n], data[..idx + n];
    forall i | 0 <= i < idx + n
      ensures a[i] == b[i]
    {
      if i < idx {
        assert w.memory[i] == w.memory[..idx][i] == data[..idx][i];
      } else {
        assert w'.memory[idx..idx + n][i - idx] == data[idx..idx + n][i - idx];
      }
    }
  }

  lemma ByteIsData(b: byte)
    ensures (b as int) % 256 == b
  {
  }

  /** One turn of either loop of the copy. */
  lemma PieceRuns(m: Machine, code: seq<byte>, st: State, data: seq<byte>, idx: nat)
    requires Stores(m) && idx < |data| <= TWO_32 && InMemory(st.world, data, idx)
    requires var piece := if idx + 32 <= |data| then MstoreWord(data, idx) else MstoreByte(data, idx);
             Holds(code, st.pc, Assemble(piece))
    ensures var n := if idx + 32 <= |data| then 32 else 1;
            var piece := if idx + 32 <= |data| then MstoreWord(data, idx) else MstoreByte(data, idx);
            match RunUntil(m, code, st, st.pc + |Assemble(piece)|) case Halted(why) => Excused(why)
            case Next(t) => t.pc == st.pc + |Assemble(piece)| && t.stack == st.stack && InMemory(t.world, data, idx + n)
  {
    hide Assemble;
    hide Holds;
    hide RunUntil;
    hide BigEndian;
    hide ToBigEndian;
    hide Wrap;
    hide InMemory;
    hide Written;
    Small(idx);
    if idx + 32 <= |data| {
      var v := Wrap(BigEndian(data[idx..idx + 32]));
      StoreRuns(m, code, st, v, idx, MSTORE);
      WordIsData(data, idx);
      var r := RunUntil(m, code, st, st.pc + |Assemble(MstoreWord(data, idx))|);
      if r.Next? {
        WrittenNext(st.world, r.st.world, data, idx, 32);
      }
    } else {
      StoreRuns(m, code, st, data[idx], idx, MSTORE8);
      ByteIsData(data[idx]);
      assert data[idx..idx + 1] == [data[idx]];
      var r := RunUntil(m, code, st, st.pc + |Assemble(MstoreByte(data, idx))|);
      if r.Next? {
        WrittenNext(st.world, r.st.world, data, idx, 1);
      }
    }
  }

  lemma Small(idx: nat)
    requires idx < TWO_32
    ensures idx % TWO_32 == idx
  {
  }

  /** The copy leaves the data in memory and the stack as it was. */
  lemma {:induction false} MstoreRuns(m: Machine, code: seq<byte>, st: State, data: seq<byte>, idx: nat)
    requires Stores(m) && idx <= |data| <= TWO_32 && InMemory(st.world, data, idx)
    requires Holds(code, st.pc, Assemble(MstoreInstrs(data, idx)))
    ensures var stop := st.pc + |Assemble(MstoreInstrs(data, idx))|;
            match RunUntil(m, code, st, stop) case Halted(why) => Excused(why)
            case Next(t) => t.pc == stop && t.stack == st.stack && InMemory(t.world, data, |data|)
    decreases |data| - idx
  {
    hide Assemble;
    hide Holds;
    hide RunUntil;
    hide MstoreWord;
    hide MstoreByte;
    hide InMemory;
    hide Stores;
    hide Fits;
    hide AllStraight;
    if idx == |data| {
      AssembleNone();
      RunNowhere(m, code, st);
    } else {
      var n := if idx + 32 <= |data| then 32 else 1;
      var piece := if idx + 32 <= |data| then MstoreWord(data, idx) else MstoreByte(data, idx);
      var rest := MstoreInstrs(data, idx + n);
      assert MstoreInstrs(data, idx) == piece + rest;
      hide MstoreInstrs;
      AssembleJoin(piece, rest);
      HoldsSplit(code, st.pc, Assemble(piece), Assemble(rest));
      PieceRuns(m, code, st, data, idx);
      PieceFits(data, idx, |st.stack|);
      RunUntilJoin(m, code, st, piece, st.pc + |Assemble(MstoreInstrs(data, idx))|);
      var r := RunUntil(m, code, st, st.pc + |Assemble(piece)|);
      if r.Next? {
        MstoreRuns(m, code, r.st, data, idx + n);
      }
    }
  }

  lemma RunNowhere(m: Machine, code: seq<byte>, st: State)
    ensures RunUntil(m, code, st, st.pc + 0) == Next(st)
  {
  }

  lemma PieceFits(data: seq<byte>, idx: nat, h: nat)
    requires idx < |data|
    ensures var piece := if idx + 32 <= |data| then MstoreWord(data, idx) else MstoreByte(data, idx);
            AllStraight(piece) && Fits(piece, h)
  {
    hide Wrap;
    hide BigEndian;
    if idx + 32 <= |data| {
      ThreeFit(Wrap(BigEndian(data[idx..idx + 32])), idx % TWO_32, MSTORE, h);
    } else {
      ThreeFit(data[idx], idx % TWO_32, MSTORE8, h);
    }
  }

  // ---------------------------------------------------------------- the create instruction

  function CreateOp(isCreate2: bool): byte
  {
    if isCreate2 then CREATE2 else CREATE
  }

  function CreateWords(size: Word, isCreate2: bool): seq<Word>
  {
    (if isCreate2 then [0] else []) + [size, 0, 0]
  }

  function AsPushes(vs: seq<Word>): (r: seq<Instr>)
    ensures |r| == |vs|
  {
    seq(|vs|, i requires 0 <= i < |vs| => Push(vs[i]))
  }

  /** A row of pushes puts its values on the stack, in order, and touches nothing else. */
  lemma {:induction false} PushesRun(m: Machine, code: seq<byte>, st: State, vs: seq<Word>)
    requires Holds(code, st.pc, Assemble(AsPushes(vs)))
    ensures var stop := st.pc + |Assemble(AsPushes(vs))|;
            match RunUntil(m, code, st, stop) case Halted(why) => Excused(why)
            case Next(t) => t.pc == stop && t.stack == st.stack + vs && t.world == st.world
    decreases |vs|
  {
    hide Step;
    hide Assemble;
    hide InstrBytes;
    hide Holds;
    if vs == [] {
      AssembleNone();
    } else {
      var rest := AsPushes(vs[1..]);
      assert AsPushes(vs) == [Push(vs[0])] + rest;
      hide AsPushes;
      FirstHolds(code, st.pc, Push(vs[0]), rest);
      StepPush(m, code, st, vs[0]);
      RunUntilStep(m, code, st, st.pc + |Assemble(AsPushes(vs))|);
      hide RunUntil;
      var r := Step(m, code, st);
      if r.Next? {
        PushesRun(m, code, r.st, vs[1..]);
        assert st.stack + [vs[0]] + vs[1..] == st.stack + vs;
      }
    }
  }

  lemma ConstructorSplit(init: seq<byte>, isCreate2: bool)
    ensures ConstructorInstrs(init, isCreate2) ==
              MstoreInstrs(init, 0) + (AsPushes(CreateWords(Wrap(|init|), isCreate2)) + [Op(CreateOp(isCreate2))])
  {
    CreateSplit(Wrap(|init|), isCreate2);
    hide MstoreInstrs;
    hide CreateInstrs;
    hide CreateWords;
    hide AsPushes;
    hide Wrap;
  }

  lemma CreateSplit(size: Word, isCreate2: bool)
    ensures CreateInstrs(size, isCreate2) == AsPushes(CreateWords(size, isCreate2)) + [Op(CreateOp(isCreate2))]
  {
    hide InstrBytes;
    var ps := AsPushes(CreateWords(size, isCreate2));
    if isCreate2 {
      assert CreateWords(size, isCreate2) == [0, size, 0, 0];
      assert ps == [Push(0), Push(size), Push(0), Push(0)];
    } else {
      assert CreateWords(size, isCreate2) == [size, 0, 0];
      assert ps == [Push(size), Push(0), Push(0)];
    }
  }

  /** The create instruction is reached with no value, offset zero, the size of the init
      code and, for CREATE2, salt zero; and the memory it reads there is the init code. */
  lemma CreateSeesInitCode(m: Machine, code: seq<byte>, st: State, init: seq<byte>, isCreate2: bool)
    requires Stores(m) && |init| <= TWO_32 && Holds(code, st.pc, Assemble(ConstructorInstrs(init, isCreate2)))
    ensures var at := st.pc + |Assemble(ConstructorInstrs(init, isCreate2))| - 1;
            at >= st.pc
            && match RunUntil(m, code, st, at) case Halted(why) => Excused(why)
               case Next(t) =>
                 && t.pc == at && OpAt(code, at) == CreateOp(isCreate2)
                 && t.stack == st.stack + (if isCreate2 then [0] else []) + [|init|, 0, 0]
                 && |t.world.memory| >= |init| && t.world.memory[..|init|] == init
  {
    hide *;
    ConstructorSplit(init, isCreate2);
    var ms, op := MstoreInstrs(init, 0), CreateOp(isCreate2);
    var vs := CreateWords(Wrap(|init|), isCreate2);
    var ps := AsPushes(vs);
    AssembleJoin(ms, ps + [Op(op)]);
    AssembleJoin(ps, [Op(op)]);
    HoldsSplit(code, st.pc, Assemble(ms), Assemble(ps + [Op(op)]));
    var p := st.pc + |Assemble(ms)|;
    HoldsSplit(code, p, Assemble(ps), Assemble([Op(op)]));
    OneHolds(code, p + |Assemble(ps)|, op);
    EmptyInMemory(st.world, init);
    MstoreRuns(m, code, st, init, 0);
    MstoreFits(init, 0, |st.stack|);
    var at := st.pc + |Assemble(ConstructorInstrs(init, isCreate2))| - 1;
    assert at == p + |Assemble(ps)|;
    RunUntilJoin(m, code, st, ms, at);
    var r := RunUntil(m, code, st, p);
    if r.Next? {
      PushesRun(m, code, r.st, vs);
      CreateWordsAre(|init|, isCreate2);
      WholeInMemory(r.st.world, init);
    }
  }

  lemma EmptyInMemory(w: World, data: seq<byte>)
    ensures InMemory(w, data, 0)
  {
  }

  lemma WholeInMemory(w: World, data: seq<byte>)
    requires InMemory(w, data, |data|)
    ensures |w.memory| >= |data| && w.memory[..|data|] == data
  {
    assert data[..|data|] == data;
  }

  lemma CreateWordsAre(n: nat, isCreate2: bool)
    requires n <= TWO_32
    ensures CreateWords(Wrap(n), isCreate2) == (if isCreate2 then [0] else []) + [n, 0, 0]
  {
  }
}
